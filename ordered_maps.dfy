/** Insertion-ordered maps: the model of a JavaScript record with string keys, where
    assigning a new key appends it, assigning an existing key keeps its position,
    and `delete` drops it. */
module OrderedMaps {

  /** `keys` lists the record's keys in insertion order; `values` holds their values. */
  datatype OMap<V> = OMap(keys: seq<string>, values: map<string, V>) {

    /** Each key is listed once and exactly the keys with values are listed. */
    ghost predicate Valid() {
      && (forall i, j :: 0 <= i < j < |keys| ==> keys[i] != keys[j])
      && (forall k :: k in values <==> k in keys)
    }

    /** `Object.keys(r).length`. */
    function Size(): nat {
      |keys|
    }

    /** `r[k] = v`. */
    function Put(k: string, v: V): (r: OMap<V>)
      requires Valid()
      ensures r.Valid()
      ensures r.values == values[k := v]
      ensures k in keys ==> r.keys == keys
      ensures k !in keys ==> r.keys == keys + [k]
    {
      if k in keys then OMap(keys, values[k := v]) else OMap(keys + [k], values[k := v])
    }

    /** `delete r[k]`. */
    function Remove(k: string): (r: OMap<V>)
      requires Valid()
      ensures r.Valid()
      ensures r.values == values - {k}
      ensures forall x :: x in r.keys <==> x in keys && x != k
      ensures k !in keys ==> r == this
    {
      var ks := RemoveKey(keys, k);
      OMap(ks, values - {k})
    }
  }

  function Empty<V>(): (r: OMap<V>)
    ensures r.Valid() && r.keys == [] && r.values == map[]
  {
    OMap([], map[])
  }

  /** The list without `k`, others in order. */
  function RemoveKey(ks: seq<string>, k: string): (r: seq<string>)
    ensures forall x :: x in r <==> x in ks && x != k
    ensures k !in ks ==> r == ks
    ensures (forall i, j :: 0 <= i < j < |ks| ==> ks[i] != ks[j]) ==>
              (forall i, j :: 0 <= i < j < |r| ==> r[i] != r[j])
  {
    if |ks| == 0 then []
    else if ks[0] == k then RemoveKey(ks[1..], k)
    else
      var rest := RemoveKey(ks[1..], k);
      assert forall x :: x in rest ==> x in ks[1..];
      assert (forall i, j :: 0 <= i < j < |ks| ==> ks[i] != ks[j]) ==> ks[0] !in ks[1..];
      [ks[0]] + rest
  }
}
