/** A Python `dict` keyed by name: its entries together with the order in which their
    keys were first inserted, which is the order `dict.values()` yields them. */
module Dicts {

  datatype Dict<V> = Dict(keys: seq<string>, items: map<string, V>)

  ghost predicate Valid<V>(d: Dict<V>) {
    && (forall i, j :: 0 <= i < j < |d.keys| ==> d.keys[i] != d.keys[j])
    && (forall k :: k in d.items <==> k in d.keys)
  }

  function Empty<V>(): (d: Dict<V>)
    ensures Valid(d)
    ensures d.items == map[] && d.keys == []
  {
    Dict([], map[])
  }

  /** `d[k] = v`: a new key goes last, an existing key keeps its place. */
  function Put<V>(d: Dict<V>, k: string, v: V): (r: Dict<V>)
    ensures Valid(d) ==> Valid(r)
    ensures r.items == d.items[k := v]
    ensures k in d.items ==> r.keys == d.keys
    ensures k !in d.items ==> r.keys == d.keys + [k]
  {
    if k in d.items then d.(items := d.items[k := v])
    else Dict(d.keys + [k], d.items[k := v])
  }

  /** `d.values()`: the entries in the order of their keys. */
  function Values<V>(d: Dict<V>): (vs: seq<V>)
    ensures Valid(d) ==> |vs| == |d.keys|
    ensures Valid(d) ==> forall i :: 0 <= i < |d.keys| ==> vs[i] == d.items[d.keys[i]]
  {
    ValuesOf(d.keys, d.items)
  }

  function ValuesOf<V>(keys: seq<string>, items: map<string, V>): (vs: seq<V>)
    ensures (forall k :: k in keys ==> k in items) ==> |vs| == |keys|
    ensures (forall k :: k in keys ==> k in items) ==> forall i :: 0 <= i < |keys| ==> vs[i] == items[keys[i]]
    decreases |keys|
  {
    if keys == [] then []
    else
      var rest := ValuesOf(keys[1..], items);
      assert forall k :: k in keys[1..] ==> k in keys;
      if keys[0] in items then [items[keys[0]]] + rest else rest
  }
}
