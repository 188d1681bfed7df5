/** Python's `dict` with string keys, which remembers insertion order: the order
    in which the program iterates over it, and in which `json` writes it. */
module Dicts {
  import opened Wrappers

  /** The entries of a dict, in insertion order. */
  type ODict<V> = seq<(string, V)>

  function Keys<V>(d: ODict<V>): (r: seq<string>)
    ensures |r| == |d| && forall i | 0 <= i < |d| :: r[i] == d[i].0
  {
    if |d| == 0 then [] else [d[0].0] + Keys(d[1..])
  }

  /** No key occurs twice, as in every Python dict. */
  predicate Distinct<V>(d: ODict<V>) {
    forall i, j | 0 <= i < j < |d| :: d[i].0 != d[j].0
  }

  /** `d.get(k)`: the value stored under `k`, if any. */
  function Get<V>(d: ODict<V>, k: string): (r: Option<V>)
    ensures r.Some? <==> k in Keys(d)
    ensures r.Some? ==> (k, r.value) in d
  {
    if |d| == 0 then None
    else if d[0].0 == k then Some(d[0].1)
    else Get(d[1..], k)
  }

  /** The value under a key is the one at the first index holding that key. */
  lemma {:induction false} GetAt<V>(d: ODict<V>, i: nat)
    requires i < |d|
    requires forall j | 0 <= j < i :: d[j].0 != d[i].0
    ensures Get(d, d[i].0) == Some(d[i].1)
    decreases i
  {
    if i > 0 {
      GetAt(d[1..], i - 1);
    }
  }

  /** A key that no entry holds is absent. */
  lemma GetMissing<V>(d: ODict<V>, k: string)
    requires forall j | 0 <= j < |d| :: d[j].0 != k
    ensures Get(d, k) == None
  {
    assert forall j | 0 <= j < |d| :: Keys(d)[j] != k;
  }

  /** `d[k] = v`: an existing key keeps its place, a new key goes last. */
  function Put<V>(d: ODict<V>, k: string, v: V): (r: ODict<V>)
    ensures forall k' :: Get(r, k') == if k' == k then Some(v) else Get(d, k')
    ensures Keys(r) == if k in Keys(d) then Keys(d) else Keys(d) + [k]
  {
    if |d| == 0 then [(k, v)]
    else if d[0].0 == k then
      var r := [(k, v)] + d[1..];
      assert r[1..] == d[1..];
      assert Keys(r) == [k] + Keys(d[1..]);
      r
    else
      var rest := Put(d[1..], k, v);
      var r := [d[0]] + rest;
      assert r[1..] == rest;
      assert Keys(r) == [d[0].0] + Keys(rest);
      r
  }

  /** A `Put` leaves the entries under every other key as they were. */
  lemma {:induction false} PutOthers<V>(d: ODict<V>, k: string, v: V, p: (string, V))
    requires p.0 != k
    ensures p in Put(d, k, v) <==> p in d
    decreases |d|
  {
    if |d| > 0 && d[0].0 != k {
      PutOthers(d[1..], k, v, p);
      assert Put(d, k, v) == [d[0]] + Put(d[1..], k, v);
      assert d == [d[0]] + d[1..];
    }
  }

  /** A second `Put` under the same key overwrites the first. */
  lemma {:induction false} PutPut<V>(d: ODict<V>, k: string, v1: V, v2: V)
    ensures Put(Put(d, k, v1), k, v2) == Put(d, k, v2)
    decreases |d|
  {
    if |d| > 0 && d[0].0 != k {
      PutPut(d[1..], k, v1, v2);
      assert Put(d, k, v1)[1..] == Put(d[1..], k, v1);
    }
  }

  /** `del d[k]` when `k` is present; nothing otherwise. */
  function Remove<V>(d: ODict<V>, k: string): (r: ODict<V>)
    ensures forall k' :: Get(r, k') == if k' == k then None else Get(d, k')
    ensures forall k' :: k' in Keys(r) <==> k' in Keys(d) && k' != k
    ensures |r| <= |d|
  {
    if |d| == 0 then []
    else if d[0].0 == k then Remove(d[1..], k)
    else [d[0]] + Remove(d[1..], k)
  }

  lemma {:induction false} DistinctRemove<V>(d: ODict<V>, k: string)
    requires Distinct(d)
    ensures Distinct(Remove(d, k))
    decreases |d|
  {
    if |d| > 0 {
      DistinctRemove(d[1..], k);
      if d[0].0 != k {
        var rest := Remove(d[1..], k);
        forall j | 0 <= j < |rest| ensures rest[j].0 != d[0].0 {
          assert rest[j].0 in Keys(rest);
        }
      }
    }
  }

  lemma DistinctPut<V>(d: ODict<V>, k: string, v: V)
    requires Distinct(d)
    ensures Distinct(Put(d, k, v))
  {
    var r := Put(d, k, v);
    forall i, j | 0 <= i < j < |r| ensures r[i].0 != r[j].0 {
      assert r[i].0 == Keys(r)[i] && r[j].0 == Keys(r)[j];
      if j >= |d| {
        assert Keys(r)[i] == Keys(d)[i] == d[i].0;
      } else {
        assert Keys(r)[i] == Keys(d)[i] && Keys(r)[j] == Keys(d)[j];
      }
    }
  }

  function KeySet<V>(d: ODict<V>): (r: set<string>)
    ensures forall k :: k in r <==> k in Keys(d)
  {
    set i | 0 <= i < |d| :: d[i].0
  }

  /** The same keys, in the same order, with every value converted by `f`. */
  function MapValues<V, W>(d: ODict<V>, f: V -> W): (r: ODict<W>)
    ensures Keys(r) == Keys(d)
    ensures forall k :: Get(r, k) == if k in Keys(d) then Some(f(Get(d, k).value)) else None
  {
    if |d| == 0 then [] else [(d[0].0, f(d[0].1))] + MapValues(d[1..], f)
  }

  /** `a.update(b)`: every entry of `b`, in order, stored into `a`. */
  function Update<V>(a: ODict<V>, b: ODict<V>): ODict<V>
  {
    if |b| == 0 then a else Put(Update(a, b[..|b| - 1]), b[|b| - 1].0, b[|b| - 1].1)
  }

  /** Appending an entry leaves the lookups of the keys already present. */
  lemma {:induction false} GetSnoc<V>(d: ODict<V>, p: (string, V), k: string)
    ensures Get(d + [p], k) == if k in Keys(d) then Get(d, k) else if p.0 == k then Some(p.1) else None
    decreases |d|
  {
    if |d| > 0 {
      assert (d + [p])[1..] == d[1..] + [p];
      GetSnoc(d[1..], p, k);
      assert Keys(d) == [d[0].0] + Keys(d[1..]);
    }
  }

  /** After the update a key of `b` holds its value in `b`, and every other
      key what it held in `a`. */
  lemma {:induction false} UpdateGet<V>(a: ODict<V>, b: ODict<V>, k: string)
    requires Distinct(b)
    ensures Get(Update(a, b), k) == if k in Keys(b) then Get(b, k) else Get(a, k)
    decreases |b|
  {
    if |b| > 0 {
      var n := |b| - 1;
      var init := b[..n];
      assert b == init + [b[n]];
      assert Distinct(init);
      UpdateGet(a, init, k);
      GetSnoc(init, b[n], k);
      if k == b[n].0 {
        assert k !in Keys(init);
      }
    }
  }
}
