/**
 * Python's `OrderedDict` (and the insertion-ordered `dict`): a key order and
 * a key-to-value map. Assigning to a key already present replaces its value
 * in place; assigning to a new key appends it.
 */
module OrderedDicts {

  datatype OrderedDict<K, V> = OrderedDict(keys: seq<K>, values: map<K, V>)

  /** Every key listed once, and the listed keys are exactly the mapped ones. */
  ghost predicate Valid<K(!new), V>(d: OrderedDict<K, V>)
  {
    && (forall i, j :: 0 <= i < j < |d.keys| ==> d.keys[i] != d.keys[j])
    && (forall k :: k in d.keys <==> k in d.values)
  }

  function Empty<K, V>(): OrderedDict<K, V>
  {
    OrderedDict([], map[])
  }

  /** `d[k] = v` */
  function Put<K, V>(d: OrderedDict<K, V>, k: K, v: V): OrderedDict<K, V>
  {
    if k in d.values then OrderedDict(d.keys, d.values[k := v])
    else OrderedDict(d.keys + [k], d.values[k := v])
  }

  /** `len(d)` */
  function Size<K, V>(d: OrderedDict<K, V>): nat
  {
    |d.keys|
  }

  /**
   * An assignment keeps every key listed once; it grows the dictionary by
   * one exactly when the key is new, keeps the position of a key already
   * there, and leaves `k` holding `v` and every other key its value.
   */
  lemma PutValid<K(!new), V>(d: OrderedDict<K, V>, k: K, v: V)
    requires Valid(d)
    ensures Valid(Put(d, k, v))
    ensures Size(Put(d, k, v)) == if k in d.values then Size(d) else Size(d) + 1
    ensures Put(d, k, v).keys[..Size(d)] == d.keys
    ensures Put(d, k, v).values[k] == v
    ensures forall j :: j in d.values && j != k ==> j in Put(d, k, v).values && Put(d, k, v).values[j] == d.values[j]
  {
    if k !in d.values {
      var r := Put(d, k, v);
      assert r.keys[..Size(d)] == d.keys;
      forall i, j | 0 <= i < j < |r.keys|
        ensures r.keys[i] != r.keys[j]
      {
        if j == |d.keys| {
          assert r.keys[i] == d.keys[i];
        }
      }
    }
  }
}
