/**
 * Python dictionaries with string keys as association lists: a Python `dict` keeps its keys in
 * insertion order, so a `seq` of (key, value) pairs with each key at most once
 * is its faithful value.
 */
module Dicts {
  import opened Wrappers

  type Dict<V> = seq<(string, V)>

  function Keys<V>(d: Dict<V>): (ks: seq<string>)
    ensures |ks| == |d| && forall i :: 0 <= i < |d| ==> ks[i] == d[i].0
  {
    if d == [] then [] else [d[0].0] + Keys(d[1..])
  }

  predicate DistinctKeys<V>(d: Dict<V>)
  {
    forall i, j :: 0 <= i < j < |d| ==> d[i].0 != d[j].0
  }

  /** `d.get(k)`: the value stored under `k`, if any. */
  function Get<V>(d: Dict<V>, k: string): (r: Option<V>)
    ensures r.Some? <==> k in Keys(d)
  {
    if d == [] then None else if d[0].0 == k then Some(d[0].1) else Get(d[1..], k)
  }

  /** `d[k] = v`: replaces the value of an existing key in place, or adds the key at the end. */
  function Set<V>(d: Dict<V>, k: string, v: V): (r: Dict<V>)
    ensures forall k' :: Get(r, k') == if k' == k then Some(v) else Get(d, k')
    ensures Keys(r) == if k in Keys(d) then Keys(d) else Keys(d) + [k]
  {
    if d == [] then [(k, v)]
    else if d[0].0 == k then [(k, v)] + d[1..]
    else [d[0]] + Set(d[1..], k, v)
  }

  /** The value of the last pair with key `k`: the one a sequence of assignments leaves. */
  function GetLast<V>(e: Dict<V>, k: string): (r: Option<V>)
    ensures r.Some? <==> k in Keys(e)
  {
    if e == [] then None
    else
      var later := GetLast(e[1..], k);
      if later.Some? then later else if e[0].0 == k then Some(e[0].1) else None
  }

  /** `d.update(e)`: assigns every pair of `e` in order. */
  function Update<V>(d: Dict<V>, e: Dict<V>): (r: Dict<V>)
    ensures forall k :: Get(r, k) == if k in Keys(e) then GetLast(e, k) else Get(d, k)
    ensures forall k :: k in Keys(r) <==> k in Keys(d) || k in Keys(e)
    decreases |e|
  {
    if e == [] then d else Update(Set(d, e[0].0, e[0].1), e[1..])
  }

  /** `dict(pairs)`. */
  function FromPairs<V>(pairs: seq<(string, V)>): Dict<V>
  {
    Update([], pairs)
  }

  lemma {:induction false} SetKeepsDistinct<V>(d: Dict<V>, k: string, v: V)
    requires DistinctKeys(d)
    ensures DistinctKeys(Set(d, k, v))
  {
    var r := Set(d, k, v);
    forall i, j | 0 <= i < j < |r| ensures r[i].0 != r[j].0 {
      assert Keys(r)[i] == r[i].0 && Keys(r)[j] == r[j].0;
      assert Keys(d) == Keys(r) || Keys(r) == Keys(d) + [k];
      if Keys(r) == Keys(d) {
        assert Keys(d)[i] == d[i].0 && Keys(d)[j] == d[j].0;
      } else if j < |d| {
        assert Keys(d)[i] == d[i].0 && Keys(d)[j] == d[j].0;
      } else {
        assert k !in Keys(d);
        assert Keys(d)[i] == r[i].0;
      }
    }
  }

  /** When no key repeats, the last pair with a key is also the first one. */
  lemma {:induction false} GetLastDistinct<V>(e: Dict<V>, k: string)
    requires DistinctKeys(e)
    ensures GetLast(e, k) == Get(e, k)
  {
    if e != [] {
      assert DistinctKeys(e[1..]) by {
        forall i, j | 0 <= i < j < |e[1..]| ensures e[1..][i].0 != e[1..][j].0 {
          assert e[1..][i] == e[i + 1] && e[1..][j] == e[j + 1];
        }
      }
      GetLastDistinct(e[1..], k);
      if e[0].0 == k {
        assert k !in Keys(e[1..]) by {
          forall i | 0 <= i < |e[1..]| ensures Keys(e[1..])[i] != k {
            assert e[1..][i] == e[i + 1];
          }
        }
      }
    }
  }

  /** In an association list with distinct keys, looking up a key finds its own entry. */
  lemma {:induction false} DistinctGet<V>(d: Dict<V>, j: nat)
    requires DistinctKeys(d) && j < |d|
    ensures Get(d, d[j].0) == Some(d[j].1)
  {
    if j > 0 {
      assert d[0].0 != d[j].0;
      assert DistinctKeys(d[1..]) by {
        forall a, b | 0 <= a < b < |d[1..]| ensures d[1..][a].0 != d[1..][b].0 {
          assert d[1..][a] == d[a + 1] && d[1..][b] == d[b + 1];
        }
      }
      DistinctGet(d[1..], j - 1);
    }
  }

  /** Updating a dict with distinct keys leaves its keys distinct. */
  lemma {:induction false} UpdateKeepsDistinct<V>(d: Dict<V>, e: Dict<V>)
    requires DistinctKeys(d)
    ensures DistinctKeys(Update(d, e))
    decreases |e|
  {
    if e != [] {
      SetKeepsDistinct(d, e[0].0, e[0].1);
      UpdateKeepsDistinct(Set(d, e[0].0, e[0].1), e[1..]);
    }
  }

  /** `dict(pairs)` keeps each key's last value and no other key. */
  lemma FromPairsSpec<V>(pairs: seq<(string, V)>, k: string)
    ensures k in Keys(FromPairs(pairs)) <==> k in Keys(pairs)
    ensures DistinctKeys(FromPairs(pairs))
    ensures GetLast(FromPairs(pairs), k) == GetLast(pairs, k)
  {
    UpdateKeepsDistinct([], pairs);
    GetLastDistinct(FromPairs(pairs), k);
  }
}
