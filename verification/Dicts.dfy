// Dictionaries that remember the order in which their keys were first set.
module Dicts {
  import opened Protocol

  datatype Item<+V> = Item(key: string, value: V)

  type Dict<+V> = seq<Item<V>>

  function Get<V>(d: Dict<V>, key: string): Option<V> {
    if d == [] then None
    else if d[0].key == key then Some(d[0].value)
    else Get(d[1..], key)
  }

  predicate Has<V>(d: Dict<V>, key: string) {
    Get(d, key).Some?
  }

  /** An existing key keeps its position, a new one goes to the end. */
  function Put<V>(d: Dict<V>, key: string, value: V): (r: Dict<V>)
    ensures forall k :: Get(r, k) == if k == key then Some(value) else Get(d, k)
  {
    if d == [] then [Item(key, value)]
    else if d[0].key == key then [Item(key, value)] + d[1..]
    else
      var rest := Put(d[1..], key, value);
      assert ([d[0]] + rest)[1..] == rest;
      [d[0]] + rest
  }

  function Values<V>(d: Dict<V>): (r: seq<V>)
    ensures |r| == |d| && forall i :: 0 <= i < |r| ==> r[i] == d[i].value
  {
    seq(|d|, i requires 0 <= i < |d| => d[i].value)
  }

  function Keys<V>(d: Dict<V>): (r: seq<string>)
    ensures |r| == |d| && forall i :: 0 <= i < |r| ==> r[i] == d[i].key
  {
    seq(|d|, i requires 0 <= i < |d| => d[i].key)
  }

  ghost predicate DistinctKeys<V>(d: Dict<V>) {
    forall i, j :: 0 <= i < j < |d| ==> d[i].key != d[j].key
  }

  lemma {:induction false} GetIsMember<V>(d: Dict<V>, key: string)
    ensures Has(d, key) <==> key in Keys(d)
    ensures Has(d, key) ==> Item(key, Get(d, key).value) in d
  {
    if d != [] && d[0].key != key {
      GetIsMember(d[1..], key);
      assert Keys(d) == [d[0].key] + Keys(d[1..]);
    } else if d != [] {
      assert Keys(d)[0] == key;
    }
  }

  lemma {:induction false} GetAt<V>(d: Dict<V>, i: nat)
    requires DistinctKeys(d) && i < |d|
    ensures Get(d, d[i].key) == Some(d[i].value)
  {
    if i > 0 {
      GetAt(d[1..], i - 1);
    }
  }

  lemma {:induction false} PutKeepsDistinct<V>(d: Dict<V>, key: string, value: V)
    requires DistinctKeys(d)
    ensures DistinctKeys(Put(d, key, value))
  {
    if d != [] && d[0].key != key {
      PutKeepsDistinct(d[1..], key, value);
      var rest := Put(d[1..], key, value);
      forall i | 0 <= i < |rest|
        ensures rest[i].key != d[0].key
      {
        GetIsMember(rest, d[0].key);
        GetIsMember(d[1..], d[0].key);
        assert rest[i].key == Keys(rest)[i];
        assert d[0].key !in Keys(d[1..]);
      }
    }
  }

  lemma {:induction false} GetNone<V>(d: Dict<V>, key: string)
    requires forall i :: 0 <= i < |d| ==> d[i].key != key
    ensures Get(d, key) == None
  {
    if d != [] {
      GetNone(d[1..], key);
    }
  }

  lemma {:induction false} PutAt<V>(d: Dict<V>, i: nat, value: V)
    requires DistinctKeys(d) && i < |d|
    ensures Put(d, d[i].key, value) == d[i := Item(d[i].key, value)]
  {
    if i > 0 {
      PutAt(d[1..], i - 1, value);
      assert d[i := Item(d[i].key, value)] == [d[0]] + d[1..][i - 1 := Item(d[i].key, value)];
    }
  }

  lemma {:induction false} PutNew<V>(d: Dict<V>, key: string, value: V)
    requires forall i :: 0 <= i < |d| ==> d[i].key != key
    ensures Put(d, key, value) == d + [Item(key, value)]
  {
    if d != [] {
      PutNew(d[1..], key, value);
      assert d + [Item(key, value)] == [d[0]] + (d[1..] + [Item(key, value)]);
    }
  }
}
