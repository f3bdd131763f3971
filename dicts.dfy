/** Python's `dict` as the engine uses it: keys remember the order of their
    first insertion, and assigning to an existing key keeps its place. */
module Dicts {

  datatype Dict<K(==), V> = Dict(keys: seq<K>, m: map<K, V>)

  predicate Distinct<T(==)>(s: seq<T>) {
    forall i, j :: 0 <= i < j < |s| ==> s[i] != s[j]
  }

  /** The keys are listed once each, and exactly the keys of the map are listed. */
  ghost predicate Valid<K(!new), V>(d: Dict<K, V>) {
    Distinct(d.keys) && forall k :: k in d.m <==> k in d.keys
  }

  function Empty<K(!new), V>(): (d: Dict<K, V>)
    ensures Valid(d) && d.keys == []
  {
    Dict([], map[])
  }

  /** `d[k] = v` */
  function Put<K(!new), V>(d: Dict<K, V>, k: K, v: V): (r: Dict<K, V>)
    ensures r.m == d.m[k := v]
    ensures r.keys == if k in d.m then d.keys else d.keys + [k]
  {
    Dict(if k in d.m then d.keys else d.keys + [k], d.m[k := v])
  }

  /** Assignment keeps the keys listed once each and in step with the map. */
  lemma PutValid<K(!new), V>(d: Dict<K, V>, k: K, v: V)
    requires Valid(d)
    ensures Valid(Put(d, k, v))
  {
    var r := Put(d, k, v);
    if k !in d.m {
      forall i, j | 0 <= i < j < |r.keys| ensures r.keys[i] != r.keys[j] {
        if j == |d.keys| {
          assert r.keys[i] == d.keys[i];
        }
      }
    }
  }

  /** `list(d.values())` */
  function Values<K(!new), V>(d: Dict<K, V>): (vs: seq<V>)
    requires Valid(d)
    ensures |vs| == |d.keys|
    ensures forall i :: 0 <= i < |vs| ==> vs[i] == d.m[d.keys[i]]
  {
    seq(|d.keys|, i requires 0 <= i < |d.keys| => d.m[d.keys[i]])
  }

  /** `list(d.items())` */
  function Items<K(!new), V>(d: Dict<K, V>): (items: seq<(K, V)>)
    requires Valid(d)
    ensures |items| == |d.keys|
    ensures forall i :: 0 <= i < |items| ==> items[i] == (d.keys[i], d.m[d.keys[i]])
  {
    seq(|d.keys|, i requires 0 <= i < |d.keys| => (d.keys[i], d.m[d.keys[i]]))
  }

  /** The dict built by `for k in ks: d[k] = v`, starting from an empty one. */
  function FromKeys<K(!new), V>(ks: seq<K>, v: V): (d: Dict<K, V>)
    ensures Valid(d)
    ensures forall k :: k in d.m <==> k in ks
    ensures forall k :: k in d.m ==> d.m[k] == v
    decreases |ks|
  {
    if ks == [] then Empty()
    else Put(FromKeys(ks[..|ks| - 1], v), ks[|ks| - 1], v)
  }

  /** One more key added by the loop that builds FromKeys. */
  lemma FromKeysStep<K(!new), V>(ks: seq<K>, i: nat, v: V)
    requires i < |ks|
    ensures FromKeys(ks[..i + 1], v) == Put(FromKeys(ks[..i], v), ks[i], v)
  {
    assert ks[..i + 1][..i] == ks[..i];
  }
}
