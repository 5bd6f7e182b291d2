/** Python's `OrderedDict` keyed by strings, as the receiver uses it for panels,
    tubes and flow paths: a sequence of entries in insertion order. Assigning to a
    key that is present replaces its value in place; assigning to a new key
    appends it. */
module OrderedDicts {
  import opened Wrappers

  datatype Entry<V> = Entry(key: string, value: V)

  type OrderedDict<V> = seq<Entry<V>>

  /** `d.keys()`, in insertion order. */
  function Keys<V>(d: OrderedDict<V>): (r: seq<string>)
    ensures |r| == |d|
  {
    seq(|d|, i requires 0 <= i < |d| => d[i].key)
  }

  /** `d.values()`, in insertion order. */
  function Values<V>(d: OrderedDict<V>): (r: seq<V>)
    ensures |r| == |d|
  {
    seq(|d|, i requires 0 <= i < |d| => d[i].value)
  }

  /** `keys()` and `values()` pair up position by position into the entries
      (`items()`). */
  lemma {:induction false} KeysValuesZip<V>(d: OrderedDict<V>)
    ensures |Keys(d)| == |Values(d)| == |d|
    ensures forall i :: 0 <= i < |d| ==> d[i] == Entry(Keys(d)[i], Values(d)[i])
  {
  }

  /** No key occurs twice: every `OrderedDict` built by `Put` keeps this. */
  predicate DistinctKeys<V>(d: OrderedDict<V>) {
    forall i, j :: 0 <= i < j < |d| ==> d[i].key != d[j].key
  }

  /** The position of key `k`, if present. */
  function Find<V>(d: OrderedDict<V>, k: string): (r: Option<nat>)
    ensures r.Some? ==> r.value < |d| && d[r.value].key == k
    ensures r.Some? ==> forall j :: 0 <= j < r.value ==> d[j].key != k
    ensures r.None? <==> k !in Keys(d)
  {
    if d == [] then None
    else if d[0].key == k then assert Keys(d)[0] == k; Some(0)
    else
      assert Keys(d) == [d[0].key] + Keys(d[1..]);
      match Find(d[1..], k)
      case None => None
      case Some(i) => Some(i + 1)
  }

  /** The lookup `d[k]`: the value stored under k, or `None` where Python raises
      `KeyError` for a missing key. */
  function Get<V>(d: OrderedDict<V>, k: string): Option<V> {
    match Find(d, k)
    case Some(i) => Some(d[i].value)
    case None => None
  }

  lemma {:induction false} FindSameKeys<V>(d: OrderedDict<V>, e: OrderedDict<V>, k: string)
    requires Keys(d) == Keys(e)
    ensures Find(d, k) == Find(e, k)
  {
    assert |d| == |Keys(d)| == |Keys(e)| == |e|;
    assert forall j :: 0 <= j < |d| ==> d[j].key == Keys(d)[j] == e[j].key;
  }

  lemma {:induction false} FindAppend<V>(d: OrderedDict<V>, e: Entry<V>, k: string)
    ensures Find(d + [e], k) ==
      if k in Keys(d) then Find(d, k) else if e.key == k then Some(|d|) else None
  {
    if d != [] {
      assert (d + [e])[1..] == d[1..] + [e];
      assert Keys(d) == [d[0].key] + Keys(d[1..]);
      FindAppend(d[1..], e, k);
    }
  }

  /** `d[k] = v`. */
  function Put<V>(d: OrderedDict<V>, k: string, v: V): (r: OrderedDict<V>)
    ensures Get(r, k) == Some(v)
    ensures forall k' :: k' != k ==> Get(r, k') == Get(d, k')
    ensures k in Keys(d) ==> Keys(r) == Keys(d)
    ensures k !in Keys(d) ==> Keys(r) == Keys(d) + [k]
    ensures k in Keys(d) ==> Values(r) == Values(d)[Find(d, k).value := v]
    ensures k !in Keys(d) ==> Values(r) == Values(d) + [v]
    ensures DistinctKeys(d) ==> DistinctKeys(r)
  {
    match Find(d, k)
    case Some(i) =>
      var r := d[i := Entry(k, v)];
      assert Keys(r) == Keys(d);
      forall k' ensures Find(r, k') == Find(d, k') { FindSameKeys(r, d, k'); }
      r
    case None =>
      var r := d + [Entry(k, v)];
      assert Keys(r) == Keys(d) + [k];
      forall k' ensures Find(r, k') == if k' in Keys(d) then Find(d, k') else if k == k' then Some(|d|) else None {
        FindAppend(d, Entry(k, v), k');
      }
      r
  }
}
