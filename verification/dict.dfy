/** A JavaScript object used as a string-keyed record store, kept as its
    ordered list of entries (the order `Object.entries` reports). Updating with
    `{ ...obj, [key]: value }` keeps an existing key in place and appends a new
    one at the end. */
module Dict {
  import opened Wrappers

  datatype Entry<V> = Entry(key: string, value: V)

  type Dict<V> = seq<Entry<V>>

  function KeyOf<V>(e: Entry<V>): string {
    e.key
  }

  function Keys<V>(d: Dict<V>): set<string> {
    set i | 0 <= i < |d| :: d[i].key
  }

  lemma KeysCons<V>(e: Entry<V>, d: Dict<V>)
    ensures Keys([e] + d) == Keys(d) + {e.key}
  {
    var c := [e] + d;
    forall x | x in Keys(c) ensures x in Keys(d) + {e.key} {
      var i :| 0 <= i < |c| && c[i].key == x;
      if i > 0 { assert d[i - 1].key == x; }
    }
    forall x | x in Keys(d) ensures x in Keys(c) {
      var i :| 0 <= i < |d| && d[i].key == x;
      assert c[i + 1].key == x;
    }
    assert c[0].key == e.key;
  }

  lemma KeysAppend<V>(d: Dict<V>, e: Entry<V>)
    ensures Keys(d + [e]) == Keys(d) + {e.key}
  {
    var c := d + [e];
    forall x | x in Keys(c) ensures x in Keys(d) + {e.key} {
      var i :| 0 <= i < |c| && c[i].key == x;
      if i < |d| { assert d[i].key == x; }
    }
    forall x | x in Keys(d) ensures x in Keys(c) {
      var i :| 0 <= i < |d| && d[i].key == x;
      assert c[i].key == x;
    }
    assert c[|d|].key == e.key;
  }

  /** A JavaScript object never holds a key twice. */
  predicate UniqueKeys<V>(d: Dict<V>) {
    forall i, j :: 0 <= i < j < |d| ==> d[i].key != d[j].key
  }

  /** `Object.values(obj)`: the values in entry order. */
  function Values<V>(d: Dict<V>): (r: seq<V>)
    ensures |r| == |d|
    ensures forall i :: 0 <= i < |d| ==> r[i] == d[i].value
  {
    seq(|d|, i requires 0 <= i < |d| => d[i].value)
  }

  /** `obj[key]`, absent as `None`. */
  function Get<V>(d: Dict<V>, k: string): (r: Option<V>)
    ensures r.Some? <==> k in Keys(d)
    decreases |d|
  {
    if |d| == 0 then None
    else if d[0].key == k then Some(d[0].value)
    else
      KeysCons(d[0], d[1..]);
      Get(d[1..], k)
  }

  /** Every entry under `k` takes the value `v`; positions do not move. */
  function Replace<V>(d: Dict<V>, k: string, v: V): (r: Dict<V>)
    ensures |r| == |d|
    ensures forall i :: 0 <= i < |d| ==> r[i].key == d[i].key
    ensures forall i :: 0 <= i < |d| && d[i].key != k ==> r[i] == d[i]
    ensures forall i :: 0 <= i < |d| && d[i].key == k ==> r[i].value == v
  {
    seq(|d|, i requires 0 <= i < |d| => if d[i].key == k then Entry(k, v) else d[i])
  }

  lemma {:induction false} GetReplace<V>(d: Dict<V>, k: string, v: V, k': string)
    ensures Get(Replace(d, k, v), k') == if k' == k && k in Keys(d) then Some(v) else Get(d, k')
    decreases |d|
  {
    if |d| > 0 {
      var r := Replace(d, k, v);
      assert r[1..] == Replace(d[1..], k, v);
      KeysCons(d[0], d[1..]);
      assert d == [d[0]] + d[1..];
      GetReplace(d[1..], k, v, k');
    }
  }

  lemma {:induction false} GetAppend<V>(d: Dict<V>, e: Entry<V>, k': string)
    ensures Get(d + [e], k') == if k' in Keys(d) then Get(d, k') else if e.key == k' then Some(e.value) else None
    decreases |d|
  {
    if |d| == 0 {
      assert d + [e] == [e];
      assert ([e])[1..] == [];
    } else {
      assert (d + [e])[1..] == d[1..] + [e];
      KeysCons(d[0], d[1..]);
      assert d == [d[0]] + d[1..];
      GetAppend(d[1..], e, k');
    }
  }

  /** `{ ...obj, [k]: v }`. */
  function Put<V>(d: Dict<V>, k: string, v: V): (r: Dict<V>)
    ensures Get(r, k) == Some(v)
    ensures forall k' :: k' != k ==> Get(r, k') == Get(d, k')
    ensures Keys(r) == Keys(d) + {k}
    ensures UniqueKeys(d) ==> UniqueKeys(r)
    ensures k !in Keys(d) ==> r == d + [Entry(k, v)]
    ensures k in Keys(d) ==> |r| == |d|
  {
    if k in Keys(d) then
      var r := Replace(d, k, v);
      assert Keys(r) == Keys(d);
      forall k' ensures Get(r, k') == if k' == k then Some(v) else Get(d, k') {
        GetReplace(d, k, v, k');
      }
      r
    else
      var r := d + [Entry(k, v)];
      forall k' ensures Get(r, k') == if k' == k then Some(v) else Get(d, k') {
        GetAppend(d, Entry(k, v), k');
      }
      KeysAppend(d, Entry(k, v));
      r
  }

  /** Sum of `f` over the values, in entry order. */
  function SumOf<V>(d: Dict<V>, f: V -> nat): nat
    decreases |d|
  {
    if |d| == 0 then 0 else f(d[0].value) + SumOf(d[1..], f)
  }

  lemma {:induction false} SumOfReplace<V>(d: Dict<V>, k: string, v: V, f: V -> nat)
    requires UniqueKeys(d) && k in Keys(d)
    ensures SumOf(Replace(d, k, v), f) + f(Get(d, k).value) == SumOf(d, f) + f(v)
    decreases |d|
  {
    var r := Replace(d, k, v);
    assert r[1..] == Replace(d[1..], k, v);
    KeysCons(d[0], d[1..]);
    assert d == [d[0]] + d[1..];
    if d[0].key == k {
      assert k !in Keys(d[1..]);
      assert Replace(d[1..], k, v) == d[1..];
    } else {
      SumOfReplace(d[1..], k, v, f);
    }
  }

  lemma {:induction false} SumOfAppend<V>(d: Dict<V>, e: Entry<V>, f: V -> nat)
    ensures SumOf(d + [e], f) == SumOf(d, f) + f(e.value)
    decreases |d|
  {
    if |d| == 0 {
      assert d + [e] == [e];
      assert [e][1..] == [];
    } else {
      assert (d + [e])[1..] == d[1..] + [e];
      SumOfAppend(d[1..], e, f);
    }
  }

  /** Storing `v` under `k` changes a sum over the values by `f(v)` minus the
      value it displaces, if any. */
  lemma SumOfPut<V>(d: Dict<V>, k: string, v: V, f: V -> nat)
    requires UniqueKeys(d)
    ensures k in Keys(d) ==> SumOf(Put(d, k, v), f) + f(Get(d, k).value) == SumOf(d, f) + f(v)
    ensures k !in Keys(d) ==> SumOf(Put(d, k, v), f) == SumOf(d, f) + f(v)
  {
    if k in Keys(d) {
      SumOfReplace(d, k, v, f);
    } else {
      SumOfAppend(d, Entry(k, v), f);
    }
  }
}
