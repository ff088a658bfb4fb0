/** Python's `dict` with its insertion order.

    The processor enumerates rosters and slot tables in dict order (the switch
    options follow the roster order, the filled-slot list follows the slot
    table order), and a `pop` followed by a store moves a key to the end. A
    plain Dafny map has no order, so a dictionary here is a map together with
    the sequence of its keys in insertion order.
 */
module OrderedDict {
  import opened Results

  /** No key occurs twice. */
  predicate Distinct<K(==)>(s: seq<K>) {
    |s| == 0 || (s[0] !in s[1..] && Distinct(s[1..]))
  }

  /** Appending a key the sequence lacks keeps it free of repetitions. */
  lemma {:induction false} DistinctSnoc<K(!new)>(s: seq<K>, k: K)
    requires Distinct(s) && k !in s
    ensures Distinct(s + [k])
  {
    if |s| > 0 {
      DistinctSnoc(s[1..], k);
      assert (s + [k])[1..] == s[1..] + [k];
    }
  }

  /** `s` without the occurrences of `k`, in order. */
  function Remove<K(==,!new)>(s: seq<K>, k: K): (r: seq<K>)
    ensures forall x :: x in r <==> x in s && x != k
    ensures Distinct(s) ==> Distinct(r)
    ensures Distinct(s) && k in s ==> |r| == |s| - 1
    ensures k !in s ==> r == s
  {
    if |s| == 0 then []
    else
      var rest := Remove(s[1..], k);
      if s[0] == k then rest
      else
        assert ([s[0]] + rest)[1..] == rest;
        [s[0]] + rest
  }

  datatype ODict<K(==,!new), V> = ODict(order: seq<K>, entries: map<K, V>) {

    /** The key order lists each key of the map exactly once. */
    predicate Valid() {
      Distinct(order)
      && (forall i :: 0 <= i < |order| ==> order[i] in entries)
      && (forall k :: k in entries ==> k in order)
    }

    function Size(): nat {
      |order|
    }

    /** `d[k]`: a `KeyError` when `k` is absent. */
    function Get(k: K): (r: Result<V>)
      ensures r.Ok? <==> k in entries
      ensures r.Ok? ==> r.value == entries[k]
      ensures r.Err? ==> r.error == KeyError
    {
      if k in entries then Ok(entries[k]) else Err(KeyError)
    }

    /** `d[k] = v`: a new key goes to the end, an existing key keeps its place. */
    function Put(k: K, v: V): (d: ODict<K, V>)
      requires Valid()
      ensures d.Valid() && d.entries == entries[k := v]
      ensures k in entries ==> d.order == order
      ensures k !in entries ==> d.order == order + [k]
    {
      if k in entries then ODict(order, entries[k := v])
      else
        DistinctSnoc(order, k);
        ODict(order + [k], entries[k := v])
    }

    /** `d.pop(k)`: the value and the dictionary without `k`; a `KeyError` when `k` is absent. */
    function Pop(k: K): (r: Result<(V, ODict<K, V>)>)
      requires Valid()
      ensures r.Ok? <==> k in entries
      ensures r.Err? ==> r.error == KeyError
      ensures r.Ok? ==> r.value.0 == entries[k]
      ensures r.Ok? ==> var d := r.value.1;
                d.Valid() && d.Size() == Size() - 1 && d.entries == entries - {k}
                && d.order == Remove(order, k)
    {
      if k in entries then
        var rest := Remove(order, k);
        assert forall i :: 0 <= i < |rest| ==> rest[i] in rest;
        Ok((entries[k], ODict(rest, entries - {k})))
      else Err(KeyError)
    }

    /** `list(d.values())`. */
    function Values(): (vs: seq<V>)
      requires Valid()
      ensures |vs| == Size()
      ensures forall i :: 0 <= i < |order| ==> vs[i] == entries[order[i]]
    {
      seq(|order|, i requires 0 <= i < |order| => entries[order[i]])
    }
  }

  /** `{}`. */
  function Empty<K(==,!new), V>(): (d: ODict<K, V>)
    ensures d.Valid() && d.Size() == 0
    ensures forall k :: d.Get(k).Err?
  {
    ODict([], map[])
  }

  /** `{k: v for k in keys}`: the keys in the given order, all mapped to `v`. */
  function FromKeys<K(==,!new), V>(keys: seq<K>, v: V): (d: ODict<K, V>)
    requires Distinct(keys)
    ensures d.Valid() && d.order == keys
    ensures forall k :: k in keys <==> d.Get(k) == Ok(v)
    ensures forall k :: k !in keys ==> d.Get(k).Err?
  {
    ODict(keys, map k | k in keys :: v)
  }

  /** Popping a key and storing a value under a fresh key keeps the size and puts the
      new key last: this is how the processor renames a roster entry. */
  lemma PopThenPut<K(!new), V>(d: ODict<K, V>, from: K, to: K, v: V)
    requires d.Valid() && d.Pop(from).Ok?
    requires to == from || d.Get(to).Err?
    ensures var moved := d.Pop(from).value.1.Put(to, v);
            moved.Size() == d.Size()
            && moved.order == Remove(d.order, from) + [to]
            && moved.Get(to) == Ok(v)
            && (forall j :: j != from && j != to ==> moved.Get(j) == d.Get(j))
  {
  }

  /** Storing a value and then reading it back gives the value; storing twice keeps the second. */
  lemma PutPut<K(!new), V>(d: ODict<K, V>, k: K, v: V, w: V)
    requires d.Valid()
    ensures d.Put(k, v).Put(k, w) == d.Put(k, w)
  {
  }

  /** Two positions of a sequence without repetitions hold different keys. */
  lemma {:induction false} DistinctIndex<K(!new)>(s: seq<K>, i: nat, j: nat)
    requires Distinct(s) && i < j < |s|
    ensures s[i] != s[j]
  {
    if i > 0 {
      assert s[1..][i - 1] == s[i] && s[1..][j - 1] == s[j];
      DistinctIndex(s[1..], i - 1, j - 1);
    } else {
      assert s[j] in s[1..];
    }
  }

  /** The suffix from `i` is the key at `i` followed by the suffix from `i + 1`. */
  lemma SuffixCons<K>(prefix: seq<K>, s: seq<K>, i: nat)
    requires i < |s|
    ensures prefix + [s[i]] + s[i + 1..] == prefix + s[i..]
  {
    assert s[i..] == [s[i]] + s[i + 1..];
  }

  /** Storing under a key and then merging a map without that key is merging first. */
  lemma UpdateUnion<K(!new), V>(m: map<K, V>, n: map<K, V>, k: K, v: V)
    requires k !in n
    ensures m[k := v] + n == m + n[k := v]
  {
  }
}
