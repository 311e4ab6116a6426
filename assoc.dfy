/**
 * Insertion-ordered dictionaries with the behaviour of a JavaScript `Map`:
 * a sequence of key/value pairs whose keys are distinct. `Set` on a present
 * key replaces the value where it stands, `Set` on a new key appends, and
 * iteration follows the sequence. Every `Map` of the modelled code (the
 * active streamers, the allocation result, the signaling server's streams
 * and its connected sockets) is one of these.
 */
module Assoc {

  datatype Option<T> = None | Some(value: T)

  type Dict<K, V> = seq<(K, V)>

  /** No key occurs twice (the representation invariant of a `Map`). */
  ghost predicate Distinct<K, V>(d: Dict<K, V>) {
    forall i, j :: 0 <= i < j < |d| ==> d[i].0 != d[j].0
  }

  /** The position of the entry for `k`, if any (`Map.has`). */
  function Find<K(==), V>(d: Dict<K, V>, k: K): (r: Option<nat>)
    ensures r.Some? ==> r.value < |d| && d[r.value].0 == k
    ensures r.Some? ==> forall i :: 0 <= i < r.value ==> d[i].0 != k
    ensures r.None? <==> forall i :: 0 <= i < |d| ==> d[i].0 != k
  {
    if |d| == 0 then None
    else if d[0].0 == k then Some(0)
    else match Find(d[1..], k)
      case None => None
      case Some(i) => Some(i + 1)
  }

  predicate Has<K(==), V>(d: Dict<K, V>, k: K) {
    Find(d, k).Some?
  }

  /** `Map.get`: the value stored under `k`, if any. */
  function Get<K(==), V>(d: Dict<K, V>, k: K): (r: Option<V>)
    ensures r.None? <==> forall i :: 0 <= i < |d| ==> d[i].0 != k
    ensures Distinct(d) ==> forall i :: 0 <= i < |d| && d[i].0 == k ==> r == Some(d[i].1)
  {
    match Find(d, k)
    case None => None
    case Some(i) => Some(d[i].1)
  }

  /** `Map.set`: replace in place when `k` is present, append otherwise. */
  function Set<K(==,!new), V>(d: Dict<K, V>, k: K, v: V): (r: Dict<K, V>)
    ensures Has(d, k) ==> SameKeys(d, r) && r[Find(d, k).value] == (k, v)
    ensures Has(d, k) ==> forall i :: 0 <= i < |d| && i != Find(d, k).value ==> r[i] == d[i]
    ensures !Has(d, k) ==> r == d + [(k, v)]
    ensures Distinct(d) ==> Distinct(r) && Get(r, k) == Some(v)
    ensures Distinct(d) ==> forall x :: x != k ==> Get(r, x) == Get(d, x)
  {
    match Find(d, k)
    case None =>
      forall x { GetAppend(d, k, v, x); }
      d + [(k, v)]
    case Some(i) =>
      GetUpdateAt(d, i, k, v);
      d[i := (k, v)]
  }

  /** `Map.delete`: drop the entry for `k`; a missing key leaves the map as it is. */
  function Remove<K(==,!new), V>(d: Dict<K, V>, k: K): (r: Dict<K, V>)
    ensures !Has(d, k) ==> r == d
    ensures Has(d, k) ==> |r| == |d| - 1
    ensures Has(d, k) ==> forall j :: 0 <= j < |r| ==> r[j] == if j < Find(d, k).value then d[j] else d[j + 1]
    ensures Distinct(d) ==> Distinct(r) && Get(r, k) == None
    ensures Distinct(d) ==> forall x :: x != k ==> Get(r, x) == Get(d, x)
  {
    match Find(d, k)
    case None => d
    case Some(i) =>
      GetDeleteAt(d, i);
      assert forall j :: 0 <= j < |d| - 1 ==> (d[..i] + d[i + 1..])[j] == if j < i then d[j] else d[j + 1];
      d[..i] + d[i + 1..]
  }

  /** The values in iteration order (`Array.from(map.values())`). */
  function Values<K, V>(d: Dict<K, V>): (vs: seq<V>)
    ensures |vs| == |d|
    ensures forall i :: 0 <= i < |d| ==> vs[i] == d[i].1
  {
    seq(|d|, i requires 0 <= i < |d| => d[i].1)
  }

  /** Two dictionaries with the same keys in the same order. */
  ghost predicate SameKeys<K, V, W>(d: Dict<K, V>, e: Dict<K, W>) {
    |d| == |e| && forall i :: 0 <= i < |d| ==> d[i].0 == e[i].0
  }

  /** Overwriting the value at the position of key `k` changes only what `k` maps to. */
  lemma GetUpdateAt<K(!new), V>(d: Dict<K, V>, i: nat, k: K, v: V)
    requires i < |d| && d[i].0 == k
    ensures SameKeys(d, d[i := (k, v)])
    ensures Distinct(d) ==> Distinct(d[i := (k, v)]) && Get(d[i := (k, v)], k) == Some(v)
    ensures Distinct(d) ==> forall x :: x != k ==> Get(d[i := (k, v)], x) == Get(d, x)
  {
    var r := d[i := (k, v)];
    if Distinct(d) {
      forall x | x != k
        ensures Get(r, x) == Get(d, x)
      {
        if Get(d, x).Some? {
          var j :| 0 <= j < |d| && d[j].0 == x;
          assert r[j] == d[j];
        }
      }
    }
  }

  /** Cutting out the entry at the position of key `d[i].0` forgets that key only. */
  lemma GetDeleteAt<K(!new), V>(d: Dict<K, V>, i: nat)
    requires i < |d|
    ensures Distinct(d) ==> Distinct(d[..i] + d[i + 1..]) && Get(d[..i] + d[i + 1..], d[i].0) == None
    ensures Distinct(d) ==> forall x :: x != d[i].0 ==> Get(d[..i] + d[i + 1..], x) == Get(d, x)
  {
    var r := d[..i] + d[i + 1..];
    assert forall j :: 0 <= j < |r| ==> r[j] == if j < i then d[j] else d[j + 1];
    if Distinct(d) {
      forall x | x != d[i].0
        ensures Get(r, x) == Get(d, x)
      {
        if Get(d, x).Some? {
          var j :| 0 <= j < |d| && d[j].0 == x;
          assert j != i;
          if j < i { assert r[j] == d[j]; } else { assert r[j - 1] == d[j]; }
        }
      }
    }
  }

  /** Appending an entry does not change what earlier keys map to. */
  lemma GetAppend<K, V>(d: Dict<K, V>, k: K, v: V, x: K)
    ensures Get(d + [(k, v)], x) == if Get(d, x).Some? then Get(d, x) else if x == k then Some(v) else None
  {
    var e := d + [(k, v)];
    match Find(d, x)
    case Some(i) =>
      assert e[i].0 == x;
      var j := Find(e, x).value;
      assert j == i;
    case None =>
      if x == k {
        assert e[|d|].0 == x;
        assert Find(e, x).value == |d|;
      }
  }

  /** Deleting a key twice is deleting it once. */
  lemma RemoveIdempotent<K(!new), V>(d: Dict<K, V>, k: K)
    requires Distinct(d)
    ensures Remove(Remove(d, k), k) == Remove(d, k)
  {
    assert !Has(Remove(d, k), k);
  }

  /** A `set` only ever writes the one pair it is given. */
  lemma SetEntries<K(!new), V(!new)>(d: Dict<K, V>, k: K, v: V)
    ensures forall p :: p in Set(d, k, v) ==> p in d || p == (k, v)
  {
    var r := Set(d, k, v);
    forall p | p in r
      ensures p in d || p == (k, v)
    {
      var j :| 0 <= j < |r| && r[j] == p;
      if j < |d| && r[j] == d[j] {
        assert d[j] in d;
      }
    }
  }

  /** A `delete` only ever drops pairs. */
  lemma RemoveEntries<K(!new), V(!new)>(d: Dict<K, V>, k: K)
    ensures forall p :: p in Remove(d, k) ==> p in d
  {
    var r := Remove(d, k);
    forall p | p in r
      ensures p in d
    {
      var j :| 0 <= j < |r| && r[j] == p;
      match Find(d, k)
      case None =>
      case Some(i) =>
        if j < i { assert r[j] == d[j]; } else { assert r[j] == d[j + 1]; }
    }
  }

  /** Writing a key back to the value it had undoes an earlier write to it, position included. */
  lemma SetBack<K(!new), V>(d: Dict<K, V>, k: K, v: V, w: V)
    requires Distinct(d) && Get(d, k) == Some(v)
    ensures Set(Set(d, k, w), k, v) == d
  {
    var i := Find(d, k).value;
    var e := Set(d, k, w);
    assert e == d[i := (k, w)];
    assert Find(e, k) == Some(i);
    assert Set(e, k, v) == e[i := (k, v)];
  }

  /** Deleting a key just written is deleting it from the map before the write. */
  lemma RemoveAfterSet<K(!new), V>(d: Dict<K, V>, k: K, v: V)
    ensures Remove(Set(d, k, v), k) == Remove(d, k)
  {
    match Find(d, k)
    case None => RemoveAfterAppend(d, k, v);
    case Some(i) => RemoveAfterOverwrite(d, k, v, i);
  }

  lemma RemoveAfterAppend<K(!new), V>(d: Dict<K, V>, k: K, v: V)
    requires !Has(d, k)
    ensures Remove(d + [(k, v)], k) == d
  {
    var e := d + [(k, v)];
    assert e[|d|].0 == k;
    assert Find(e, k) == Some(|d|);
    forall j | 0 <= j < |d|
      ensures Remove(e, k)[j] == d[j]
    {
      assert e[j] == d[j];
    }
  }

  lemma RemoveAfterOverwrite<K(!new), V>(d: Dict<K, V>, k: K, v: V, i: nat)
    requires Find(d, k) == Some(i)
    ensures Remove(d[i := (k, v)], k) == Remove(d, k)
  {
    var e := d[i := (k, v)];
    assert e[i].0 == k;
    assert forall j :: 0 <= j < i ==> e[j].0 == d[j].0 != k;
    assert Find(e, k) == Some(i);
    assert e[..i] == d[..i] && e[i + 1..] == d[i + 1..];
  }
}
