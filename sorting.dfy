/**
 * Python's `sorted(xs, key=...)` and list comprehensions with an `if`.
 * Sort keys (strings, booleans, integers and tuples of them) are encoded as
 * integer sequences compared lexicographically, which is how Python compares
 * strings (by code point) and tuples (element by element).
 */
module Sorting {

  predicate LexLe(a: seq<int>, b: seq<int>)
  {
    a == [] || (b != [] && (a[0] < b[0] || (a[0] == b[0] && LexLe(a[1..], b[1..]))))
  }

  lemma {:induction false} LexLeTotal(a: seq<int>, b: seq<int>)
    ensures LexLe(a, b) || LexLe(b, a)
  {
    if a != [] && b != [] && a[0] == b[0] {
      LexLeTotal(a[1..], b[1..]);
    }
  }

  lemma {:induction false} LexLeTransitive(a: seq<int>, b: seq<int>, c: seq<int>)
    requires LexLe(a, b) && LexLe(b, c)
    ensures LexLe(a, c)
  {
    if a != [] && b != [] && c != [] && a[0] == b[0] == c[0] {
      LexLeTransitive(a[1..], b[1..], c[1..]);
    }
  }

  lemma {:induction false} LexLeAntisymmetric(a: seq<int>, b: seq<int>)
    requires LexLe(a, b) && LexLe(b, a)
    ensures a == b
  {
    if a != [] && b != [] {
      LexLeAntisymmetric(a[1..], b[1..]);
      assert a == [a[0]] + a[1..] && b == [b[0]] + b[1..];
    }
  }

  /** The key of a string: its code points. */
  function StringKey(s: string): seq<int>
  {
    seq(|s|, i requires 0 <= i < |s| => s[i] as int)
  }

  lemma StringKeyInjective(s: string, t: string)
    requires StringKey(s) == StringKey(t)
    ensures s == t
  {
    assert |s| == |StringKey(s)| == |t|;
    forall i | 0 <= i < |s| ensures s[i] == t[i] {
      assert StringKey(s)[i] == StringKey(t)[i];
    }
  }

  predicate SortedBy<T>(s: seq<T>, key: T -> seq<int>)
  {
    forall i, j :: 0 <= i < j < |s| ==> LexLe(key(s[i]), key(s[j]))
  }

  /** Puts `x` in front of the first element whose key is not below its own. */
  function Insert<T>(x: T, s: seq<T>, key: T -> seq<int>): (r: seq<T>)
    ensures multiset(r) == multiset(s) + multiset{x}
    ensures SortedBy(s, key) ==> SortedBy(r, key)
  {
    if s == [] || LexLe(key(x), key(s[0])) then
      var r := [x] + s;
      assert SortedBy(s, key) ==> SortedBy(r, key) by {
        if SortedBy(s, key) && s != [] {
          forall j | 1 <= j < |r| ensures LexLe(key(x), key(r[j])) {
            if j > 1 { LexLeTransitive(key(x), key(s[0]), key(s[j - 1])); }
          }
        }
      }
      r
    else
      var rest := Insert(x, s[1..], key);
      var r := [s[0]] + rest;
      assert SortedBy(s, key) ==> SortedBy(r, key) by {
        if SortedBy(s, key) {
          LexLeTotal(key(x), key(s[0]));
          forall j | 1 <= j < |r| ensures LexLe(key(s[0]), key(r[j])) {
            assert r[j] in multiset(rest);
            assert r[j] == x || r[j] in multiset(s[1..]);
            if r[j] != x {
              var k :| 0 <= k < |s[1..]| && s[1..][k] == r[j];
              assert s[k + 1] == r[j];
            }
          }
        }
      }
      assert s == [s[0]] + s[1..];
      r
  }

  /** Python's `sorted(s, key=key)`: an insertion sort, stable as Python's sort is. */
  function SortBy<T>(s: seq<T>, key: T -> seq<int>): (r: seq<T>)
    ensures multiset(r) == multiset(s)
    ensures SortedBy(r, key)
  {
    if s == [] then [] else
      assert s == [s[0]] + s[1..];
      Insert(s[0], SortBy(s[1..], key), key)
  }

  /** The elements whose key is `k`, in order. */
  function WithKey<T>(s: seq<T>, key: T -> seq<int>, k: seq<int>): seq<T>
  {
    if s == [] then []
    else if key(s[0]) == k then [s[0]] + WithKey(s[1..], key, k)
    else WithKey(s[1..], key, k)
  }

  lemma {:induction false} InsertWithKey<T>(x: T, s: seq<T>, key: T -> seq<int>, k: seq<int>)
    ensures WithKey(Insert(x, s, key), key, k)
         == if key(x) == k then [x] + WithKey(s, key, k) else WithKey(s, key, k)
  {
    if s != [] && !LexLe(key(x), key(s[0])) {
      InsertWithKey(x, s[1..], key, k);
      LexLeTotal(key(x), key(s[0]));
      assert key(s[0]) != key(x);
    }
  }

  /** Stability: elements with equal keys keep their original order. */
  lemma {:induction false} SortByStable<T>(s: seq<T>, key: T -> seq<int>, k: seq<int>)
    ensures WithKey(SortBy(s, key), key, k) == WithKey(s, key, k)
  {
    if s != [] {
      SortByStable(s[1..], key, k);
      InsertWithKey(s[0], SortBy(s[1..], key), key, k);
    }
  }

  /** `[x for x in s if p(x)]`. */
  function Filter<T>(s: seq<T>, p: T -> bool): seq<T>
  {
    if s == [] then [] else if p(s[0]) then [s[0]] + Filter(s[1..], p) else Filter(s[1..], p)
  }

  lemma {:induction false} FilterMultiset<T>(s: seq<T>, p: T -> bool, x: T)
    ensures multiset(Filter(s, p))[x] == if p(x) then multiset(s)[x] else 0
  {
    if s != [] {
      FilterMultiset(s[1..], p, x);
      assert s == [s[0]] + s[1..];
    }
  }

  lemma {:induction false} FilterElements<T>(s: seq<T>, p: T -> bool)
    ensures forall x :: x in Filter(s, p) ==> x in s && p(x)
  {
    if s != [] { FilterElements(s[1..], p); }
  }

  lemma {:induction false} FilterSorted<T>(s: seq<T>, p: T -> bool, key: T -> seq<int>)
    requires SortedBy(s, key)
    ensures SortedBy(Filter(s, p), key)
  {
    if s != [] {
      assert SortedBy(s[1..], key) by {
        forall i, j | 0 <= i < j < |s[1..]| ensures LexLe(key(s[1..][i]), key(s[1..][j])) {
          assert s[1..][i] == s[i + 1] && s[1..][j] == s[j + 1];
        }
      }
      FilterSorted(s[1..], p, key);
      FilterElements(s[1..], p);
      if p(s[0]) {
        var r := Filter(s, p);
        forall j | 1 <= j < |r| ensures LexLe(key(s[0]), key(r[j])) {
          assert r[j] in s[1..];
          var k :| 0 <= k < |s[1..]| && s[1..][k] == r[j];
          assert s[k + 1] == r[j];
        }
      }
    }
  }

  /** Selecting the elements with key `k` after filtering changes nothing when every such element passes the filter. */
  lemma {:induction false} WithKeyFilter<T>(s: seq<T>, p: T -> bool, key: T -> seq<int>, k: seq<int>)
    requires forall i :: 0 <= i < |s| && key(s[i]) == k ==> p(s[i])
    ensures WithKey(Filter(s, p), key, k) == WithKey(s, key, k)
  {
    if s != [] {
      assert forall i :: 0 <= i < |s[1..]| && key(s[1..][i]) == k ==> p(s[1..][i]) by {
        forall i | 0 <= i < |s[1..]| ensures key(s[1..][i]) == k ==> p(s[1..][i]) {
          assert s[1..][i] == s[i + 1];
        }
      }
      WithKeyFilter(s[1..], p, key, k);
    }
  }
}
