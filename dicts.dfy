/**
 * A Python `dict` with string keys. Python dicts remember insertion order: iterating
 * one visits its keys in the order they were first inserted, and assigning to a key
 * that is already present keeps its place.
 */
module Dicts {
  import opened Collections

  /** The keys in insertion order, and what each key maps to. */
  datatype Dict<V> = Dict(keys: seq<string>, values: map<string, V>)
  {
    /** Every key is listed once, and the listed keys are exactly the mapped ones. */
    ghost predicate Valid()
    {
      Distinct(keys) && forall k :: k in values <==> k in keys
    }

    /** `d[k] = v`: a new key goes to the end of the order, a present key keeps its place. */
    function Put(k: string, v: V): (r: Dict<V>)
      ensures Valid() ==> r.Valid()
      ensures r.values.Keys == values.Keys + {k} && r.values[k] == v
      ensures forall j :: j in values && j != k ==> j in r.values && r.values[j] == values[j]
      ensures k in values ==> r.keys == keys
      ensures k !in values ==> r.keys == keys + [k]
    {
      var r := Dict(if k in values then keys else keys + [k], values[k := v]);
      assert Valid() && k !in values ==> Distinct(keys + [k]) by {
        if Valid() && k !in values {
          var s := keys + [k];
          forall i, j | 0 <= i < j < |s| ensures s[i] != s[j] {
            if j == |keys| { assert s[i] == keys[i]; }
          }
        }
      }
      r
    }
  }

  /** `{}` */
  function EmptyDict<V>(): (d: Dict<V>)
    ensures d.Valid() && d.keys == [] && d.values == map[]
  {
    Dict([], map[])
  }
}
