/** An insertion-ordered dictionary: a JavaScript object with string keys
    (`Object.keys` order) or a Python `dict`. Assigning to a present key keeps
    its position, a new key goes to the end, deleting a key keeps the order of
    the others. */
module Dicts {
  import opened Wrappers
  import opened Seqs

  datatype Dict<K, V> = Dict(keys: seq<K>, vals: map<K, V>)

  /** Every key is listed once, and the listed keys are exactly the mapped ones. */
  ghost predicate Valid<K, V>(d: Dict<K, V>) {
    NoDuplicates(d.keys) && d.vals.Keys == Elements(d.keys)
  }

  function Empty<K, V>(): (d: Dict<K, V>)
    ensures Valid(d) && |d.keys| == 0
  {
    Dict([], map[])
  }

  function Get<K, V>(d: Dict<K, V>, k: K): Option<V> {
    if k in d.vals then Some(d.vals[k]) else None
  }

  /** `d[k] = v`. */
  function Put<K, V>(d: Dict<K, V>, k: K, v: V): (r: Dict<K, V>)
    requires Valid(d)
    ensures Valid(r)
    ensures r.vals == d.vals[k := v]
    ensures r.keys == if k in d.vals then d.keys else d.keys + [k]
  {
    if k in d.vals then Dict(d.keys, d.vals[k := v])
    else
      var r := Dict(d.keys + [k], d.vals[k := v]);
      assert Elements(r.keys) == Elements(d.keys) + {k};
      r
  }

  function IndexOf<T(==)>(s: seq<T>, x: T): (i: nat)
    requires x in s
    ensures i < |s| && s[i] == x
  {
    if s[0] == x then 0 else 1 + IndexOf(s[1..], x)
  }

  /** `del d[k]` (or `d.pop(k)`) for a present key; nothing for an absent one. */
  function Remove<K(==,!new), V>(d: Dict<K, V>, k: K): (r: Dict<K, V>)
    requires Valid(d)
    ensures Valid(r)
    ensures r.vals == d.vals - {k}
    ensures k in d.vals ==> |r.keys| == |d.keys| - 1
    ensures k in d.vals ==> r.keys == Filter(d.keys, Unequal(k))
    ensures k !in d.vals ==> r == d
  {
    if k !in d.vals then d
    else
      var i := IndexOf(d.keys, k);
      DeleteIsFilter(d.keys, i);
      DeleteAtKeys(d.keys, i);
      Dict(d.keys[..i] + d.keys[i + 1..], d.vals - {k})
  }

  /** Deleting the key at `i` from a list without repeats leaves a list
      without repeats holding every other key. */
  lemma DeleteAtKeys<K>(keys: seq<K>, i: nat)
    requires NoDuplicates(keys) && i < |keys|
    ensures var ks := keys[..i] + keys[i + 1..];
            NoDuplicates(ks) && Elements(ks) == Elements(keys) - {keys[i]}
  {
    var ks := keys[..i] + keys[i + 1..];
    assert forall j :: 0 <= j < |ks| ==> ks[j] == keys[if j < i then j else j + 1];
    assert Elements(ks) == Elements(keys) - {keys[i]} by {
      forall x | x in Elements(keys) - {keys[i]} ensures x in Elements(ks) {
        var j :| 0 <= j < |keys| && keys[j] == x;
        assert j != i;
        assert x == ks[if j < i then j else j - 1];
      }
    }
  }

  /** `Object.entries(d)`: the pairs in key order. */
  function Entries<K, V>(d: Dict<K, V>): (es: seq<(K, V)>)
    requires Valid(d)
    ensures |es| == |d.keys|
    ensures forall i :: 0 <= i < |es| ==> es[i].0 == d.keys[i] && es[i].0 in d.vals && es[i].1 == d.vals[es[i].0]
  {
    seq(|d.keys|, i requires 0 <= i < |d.keys| => (d.keys[i], d.vals[d.keys[i]]))
  }
}
