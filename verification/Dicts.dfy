/** Ordered string-keyed dicts, as Python keeps them. */
module Dicts {
  import opened Wrappers
  import opened Questions

  type Dict<T> = seq<(string, T)>

  function Keys<T>(d: Dict<T>): seq<string> {
    seq(|d|, i requires 0 <= i < |d| => d[i].0)
  }

  function Values<T>(d: Dict<T>): seq<T> {
    seq(|d|, i requires 0 <= i < |d| => d[i].1)
  }

  /** Assignment: an existing key keeps its place. */
  function Put<T>(d: Dict<T>, key: string, value: T): Dict<T> {
    if d == [] then [(key, value)]
    else if d[0].0 == key then [(key, value)] + d[1..]
    else [d[0]] + Put(d[1..], key, value)
  }

  /** A dict display or comprehension over these pairs, after `d`. */
  function PutAll<T>(d: Dict<T>, pairs: seq<(string, T)>): Dict<T>
    decreases |pairs|
  {
    if pairs == [] then d else PutAll(Put(d, pairs[0].0, pairs[0].1), pairs[1..])
  }

  function Get<T>(d: Dict<T>, key: string): Option<T> {
    if d == [] then None else if d[0].0 == key then Some(d[0].1) else Get(d[1..], key)
  }

  lemma {:induction false} PutNew<T>(d: Dict<T>, key: string, value: T)
    requires forall e | e in d :: e.0 != key
    ensures Put(d, key, value) == d + [(key, value)]
  {
    if d != [] {
      assert d == [d[0]] + d[1..];
      PutNew(d[1..], key, value);
    }
  }

  /** With distinct keys a dict is just its pairs. */
  lemma {:induction false} PutAllDistinct<T>(d: Dict<T>, pairs: seq<(string, T)>)
    requires forall i, j :: 0 <= i < j < |d + pairs| ==> (d + pairs)[i].0 != (d + pairs)[j].0
    ensures PutAll(d, pairs) == d + pairs
    decreases |pairs|
  {
    if pairs != [] {
      forall e | e in d
        ensures e.0 != pairs[0].0
      {
        var i :| 0 <= i < |d| && d[i] == e;
        assert (d + pairs)[i] == e && (d + pairs)[|d|] == pairs[0];
      }
      PutNew(d, pairs[0].0, pairs[0].1);
      assert d + [pairs[0]] + pairs[1..] == d + pairs;
      PutAllDistinct(d + [pairs[0]], pairs[1..]);
    }
  }

  lemma PutAllEmpty<T>(pairs: seq<(string, T)>)
    requires Distinct(Keys(pairs))
    ensures PutAll([], pairs) == pairs
  {
    assert [] + pairs == pairs;
    assert forall i :: 0 <= i < |pairs| ==> Keys(pairs)[i] == pairs[i].0;
    PutAllDistinct([], pairs);
  }

  lemma {:induction false} GetAt<T>(d: Dict<T>, i: nat)
    requires i < |d| && Distinct(Keys(d))
    ensures Get(d, d[i].0) == Some(d[i].1)
  {
    assert forall j :: 0 <= j < |d| ==> Keys(d)[j] == d[j].0;
    if i > 0 {
      assert Keys(d)[0] != Keys(d)[i];
      assert Keys(d[1..]) == Keys(d)[1..];
      GetAt(d[1..], i - 1);
    }
  }
}
