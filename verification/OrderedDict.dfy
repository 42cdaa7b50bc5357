/** A dictionary that remembers insertion order, because its JSON text depends on that order:
    overwriting a key keeps its place, a new key goes last. */
module OrderedDict {
  import opened Options

  type Dict<K(==), V> = seq<(K, V)>

  predicate DistinctKeys<K(==), V>(d: Dict<K, V>) {
    forall i, j | 0 <= i < j < |d| :: d[i].0 != d[j].0
  }

  function Get<K(==), V>(d: Dict<K, V>, k: K): Option<V> {
    if d == [] then None else if d[0].0 == k then Some(d[0].1) else Get(d[1..], k)
  }

  function Put<K(==), V>(d: Dict<K, V>, k: K, v: V): Dict<K, V> {
    if d == [] then [(k, v)]
    else if d[0].0 == k then [(k, v)] + d[1..]
    else [d[0]] + Put(d[1..], k, v)
  }

  function Pop<K(==), V>(d: Dict<K, V>, k: K): Dict<K, V> {
    if d == [] then []
    else if d[0].0 == k then d[1..]
    else [d[0]] + Pop(d[1..], k)
  }

  lemma {:induction false} GetAfterPut<K, V>(d: Dict<K, V>, k: K, v: V, j: K)
    ensures Get(Put(d, k, v), j) == if j == k then Some(v) else Get(d, j)
  {
    if d != [] && d[0].0 != k {
      GetAfterPut(d[1..], k, v, j);
    }
  }

  lemma {:induction false} GetAfterPop<K, V>(d: Dict<K, V>, k: K, j: K)
    requires DistinctKeys(d)
    ensures Get(Pop(d, k), j) == if j == k then None else Get(d, j)
  {
    if d != [] {
      if d[0].0 == k {
        Present(d[1..], k);
      } else {
        GetAfterPop(d[1..], k, j);
      }
    }
  }

  lemma {:induction false} Present<K, V>(d: Dict<K, V>, k: K)
    ensures Get(d, k).Some? ==> (k, Get(d, k).value) in d
    ensures Get(d, k).None? <==> forall i | 0 <= i < |d| :: d[i].0 != k
  {
    if d != [] {
      Present(d[1..], k);
      assert d == [d[0]] + d[1..];
    }
  }

  lemma {:induction false} GetOfEntry<K, V>(d: Dict<K, V>, k: K, v: V)
    requires DistinctKeys(d) && (k, v) in d
    ensures Get(d, k) == Some(v)
  {
    if d[0] != (k, v) {
      assert d == [d[0]] + d[1..];
      GetOfEntry(d[1..], k, v);
    }
  }

  lemma {:induction false} HeadApart<K, V>(head: (K, V), rest: Dict<K, V>)
    requires DistinctKeys(rest) && forall i | 0 <= i < |rest| :: rest[i].0 != head.0
    ensures DistinctKeys([head] + rest)
  {
    var d := [head] + rest;
    assert d[0] == head && forall i | 0 < i < |d| :: d[i] == rest[i - 1];
  }

  lemma {:induction false} TailApart<K, V>(d: Dict<K, V>)
    requires DistinctKeys(d) && d != []
    ensures DistinctKeys(d[1..]) && forall e | e in d[1..] :: e.0 != d[0].0 && e in d
  {
  }

  lemma {:induction false} PutKeepsDistinct<K, V>(d: Dict<K, V>, k: K, v: V)
    requires DistinctKeys(d)
    ensures DistinctKeys(Put(d, k, v))
    ensures forall e | e in Put(d, k, v) :: e == (k, v) || e in d
  {
    if d != [] {
      TailApart(d);
      if d[0].0 == k {
        HeadApart((k, v), d[1..]);
      } else {
        PutKeepsDistinct(d[1..], k, v);
        var rest := Put(d[1..], k, v);
        forall i | 0 <= i < |rest| ensures rest[i].0 != d[0].0 {
          assert rest[i] in rest;
        }
        HeadApart(d[0], rest);
      }
    }
  }

  lemma {:induction false} PopKeepsDistinct<K, V>(d: Dict<K, V>, k: K)
    requires DistinctKeys(d)
    ensures DistinctKeys(Pop(d, k))
    ensures forall e | e in Pop(d, k) :: e in d
  {
    if d != [] {
      TailApart(d);
      if d[0].0 != k {
        PopKeepsDistinct(d[1..], k);
        var rest := Pop(d[1..], k);
        forall i | 0 <= i < |rest| ensures rest[i].0 != d[0].0 {
          assert rest[i] in rest;
        }
        HeadApart(d[0], rest);
      }
    }
  }
}
