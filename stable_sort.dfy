/**
 * A stable sort by key, as Python's sorted(xs, key=f) and a stable DataFrame.sort_values(key=f)
 * perform it: the result is ordered by key, and elements with equal keys keep their input order.
 */
module StableSort {

  /** `less` is a strict total order on keys: equal keys are exactly the ties. */
  ghost predicate StrictTotalOrder<K(!new)>(less: (K, K) -> bool) {
    && (forall a :: !less(a, a))
    && (forall a, b, c :: less(a, b) && less(b, c) ==> less(a, c))
    && (forall a, b :: a != b ==> less(a, b) || less(b, a))
  }

  /** No element is followed by one with a strictly smaller key. */
  ghost predicate SortedBy<T, K>(s: seq<T>, key: T -> K, less: (K, K) -> bool) {
    forall i, j :: 0 <= i < j < |s| ==> !less(key(s[j]), key(s[i]))
  }

  /** The elements of s whose key is k, in the order of s. */
  function WithKey<T, K(==)>(s: seq<T>, key: T -> K, k: K): (r: seq<T>)
    ensures |r| <= |s|
  {
    if s == [] then []
    else (if key(s[0]) == k then [s[0]] else []) + WithKey(s[1..], key, k)
  }

  /** Places x before the first element whose key is not strictly smaller than x's. */
  function Insert<T, K>(x: T, s: seq<T>, key: T -> K, less: (K, K) -> bool): (r: seq<T>)
    ensures multiset(r) == multiset(s) + multiset{x}
  {
    if s == [] || !less(key(s[0]), key(x)) then [x] + s
    else
      assert s == [s[0]] + s[1..];
      [s[0]] + Insert(x, s[1..], key, less)
  }

  /** Insertion sort; the head of the input is inserted ahead of its ties. */
  function SortBy<T, K>(s: seq<T>, key: T -> K, less: (K, K) -> bool): (r: seq<T>)
    ensures multiset(r) == multiset(s)
  {
    if s == [] then []
    else
      assert s == [s[0]] + s[1..];
      Insert(s[0], SortBy(s[1..], key, less), key, less)
  }

  lemma {:induction false} InsertSorted<T, K(!new)>(x: T, s: seq<T>, key: T -> K, less: (K, K) -> bool)
    requires StrictTotalOrder(less)
    requires SortedBy(s, key, less)
    ensures SortedBy(Insert(x, s, key, less), key, less)
  {
    var r := Insert(x, s, key, less);
    if s == [] || !less(key(s[0]), key(x)) {
      forall i, j | 0 <= i < j < |r| ensures !less(key(r[j]), key(r[i])) {
        if i == 0 {
          assert r[j] == s[j - 1];
          if j - 1 > 0 {
            assert !less(key(s[j - 1]), key(s[0]));
          }
        } else {
          assert r[i] == s[i - 1] && r[j] == s[j - 1];
        }
      }
    } else {
      var t := Insert(x, s[1..], key, less);
      InsertSorted(x, s[1..], key, less);
      assert r == [s[0]] + t;
      forall j | 0 <= j < |t| ensures !less(key(t[j]), key(s[0])) {
        assert t[j] in multiset(t);
        if t[j] != x {
          assert t[j] in multiset(s[1..]);
          var k :| 0 <= k < |s[1..]| && s[1..][k] == t[j];
          assert s[k + 1] == t[j];
        }
      }
      forall i, j | 0 <= i < j < |r| ensures !less(key(r[j]), key(r[i])) {
        if i == 0 {
          assert r[j] == t[j - 1];
        } else {
          assert r[i] == t[i - 1] && r[j] == t[j - 1];
        }
      }
    }
  }

  /** The sort orders its output by key. */
  lemma {:induction false} SortBySorted<T, K(!new)>(s: seq<T>, key: T -> K, less: (K, K) -> bool)
    requires StrictTotalOrder(less)
    ensures SortedBy(SortBy(s, key, less), key, less)
  {
    if s != [] {
      SortBySorted(s[1..], key, less);
      InsertSorted(s[0], SortBy(s[1..], key, less), key, less);
    }
  }

  lemma WithKeyCons<T, K>(a: T, s: seq<T>, key: T -> K, k: K)
    ensures WithKey([a] + s, key, k) == (if key(a) == k then [a] else []) + WithKey(s, key, k)
  {
    assert ([a] + s)[0] == a && ([a] + s)[1..] == s;
  }

  lemma {:induction false} InsertWithKey<T, K(!new)>(x: T, s: seq<T>, key: T -> K, less: (K, K) -> bool, k: K)
    requires forall a :: !less(a, a)
    ensures WithKey(Insert(x, s, key, less), key, k) == WithKey([x], key, k) + WithKey(s, key, k)
  {
    WithKeyCons(x, [], key, k);
    assert [x] + [] == [x];
    if s == [] || !less(key(s[0]), key(x)) {
      WithKeyCons(x, s, key, k);
    } else {
      var t := Insert(x, s[1..], key, less);
      assert Insert(x, s, key, less) == [s[0]] + t;
      assert s == [s[0]] + s[1..];
      InsertWithKey(x, s[1..], key, less, k);
      WithKeyCons(s[0], t, key, k);
      WithKeyCons(s[0], s[1..], key, k);
      var rest := WithKey(s[1..], key, k);
      if key(x) == k {
        assert key(s[0]) != k;
        assert WithKey(t, key, k) == [x] + rest;
        assert WithKey(s, key, k) == rest;
      } else {
        assert WithKey(t, key, k) == rest;
      }
    }
  }

  lemma {:induction false} WithKeyAppend<T, K>(s: seq<T>, t: seq<T>, key: T -> K, k: K)
    ensures WithKey(s + t, key, k) == WithKey(s, key, k) + WithKey(t, key, k)
  {
    if s != [] {
      WithKeyAppend(s[1..], t, key, k);
      assert s + t == [s[0]] + (s[1..] + t);
      assert s == [s[0]] + s[1..];
      WithKeyCons(s[0], s[1..] + t, key, k);
      WithKeyCons(s[0], s[1..], key, k);
    } else {
      assert s + t == t;
    }
  }

  /** Two elements of s with key k appear in WithKey(s, key, k) in the order they have in s. */
  lemma WithKeyPositions<T, K>(s: seq<T>, key: T -> K, k: K, a: nat, b: nat)
    requires a < b < |s| && key(s[a]) == k && key(s[b]) == k
    ensures var w := WithKey(s, key, k);
      exists x, y :: 0 <= x < y < |w| && w[x] == s[a] && w[y] == s[b]
  {
    var w := WithKey(s, key, k);
    var p, m, t := s[..a], s[a + 1..b], s[b + 1..];
    assert s == p + [s[a]] + m + [s[b]] + t;
    WithKeyAppend(p + [s[a]] + m + [s[b]], t, key, k);
    WithKeyAppend(p + [s[a]] + m, [s[b]], key, k);
    WithKeyAppend(p + [s[a]], m, key, k);
    WithKeyAppend(p, [s[a]], key, k);
    WithKeyCons(s[a], [], key, k);
    WithKeyCons(s[b], [], key, k);
    assert [s[a]] + [] == [s[a]] && [s[b]] + [] == [s[b]];
    var x := |WithKey(p, key, k)|;
    var y := x + 1 + |WithKey(m, key, k)|;
    assert w[x] == s[a] && w[y] == s[b];
  }

  /** Stability: for every key, the elements carrying it appear in the output in input order. */
  lemma {:induction false} SortByStable<T, K(!new)>(s: seq<T>, key: T -> K, less: (K, K) -> bool, k: K)
    requires StrictTotalOrder(less)
    ensures WithKey(SortBy(s, key, less), key, k) == WithKey(s, key, k)
  {
    if s != [] {
      SortByStable(s[1..], key, less, k);
      InsertWithKey(s[0], SortBy(s[1..], key, less), key, less, k);
      assert WithKey([s[0]], key, k) == (if key(s[0]) == k then [s[0]] else []);
    }
  }
}
