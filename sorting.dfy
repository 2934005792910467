/**
 * `sort_by(|a, b| a.partial_cmp(b))` as the plotter uses it: a stable sort of
 * values (statistics) or of indices by the value they point at (series
 * math). Keys are finite reals, so the comparison is total.
 */
module Sorting {

  /** Non-decreasing by `key`. */
  predicate SortedBy<T>(s: seq<T>, key: T -> real)
  {
    forall i, j :: 0 <= i <= j < |s| ==> key(s[i]) <= key(s[j])
  }

  /** Among equal keys, indices keep their original (increasing) order. */
  predicate StableIndexOrder(r: seq<nat>, key: nat -> real)
  {
    forall a, b :: 0 <= a < b < |r| && key(r[a]) == key(r[b]) ==> r[a] < r[b]
  }

  /** Where `InsertBy` places `v`: after every leading element whose key is
      not greater than `key(v)`. */
  function InsertPos<T>(s: seq<T>, v: T, key: T -> real): (k: nat)
    ensures k <= |s|
    ensures forall i :: 0 <= i < k ==> key(s[i]) <= key(v)
    ensures k < |s| ==> key(v) < key(s[k])
  {
    if s == [] || key(v) < key(s[0]) then 0
    else
      var k := InsertPos(s[1..], v, key);
      assert forall i :: 1 <= i < k + 1 ==> s[i] == s[1..][i - 1];
      1 + k
  }

  /** One insertion step of the stable insertion sort. */
  function InsertBy<T>(s: seq<T>, v: T, key: T -> real): (r: seq<T>)
    ensures |r| == |s| + 1
    ensures multiset(r) == multiset(s) + multiset{v}
  {
    var k := InsertPos(s, v, key);
    assert s == s[..k] + s[k..];
    s[..k] + [v] + s[k..]
  }

  /** The element at `i` after the insertion: the old element before the
      insertion point, `v` at it, and the old element one place back after
      it. */
  lemma InsertByAt<T>(s: seq<T>, v: T, key: T -> real, i: nat)
    requires i <= |s|
    ensures var k := InsertPos(s, v, key);
      InsertBy(s, v, key)[i] == if i < k then s[i] else if i == k then v else s[i - 1]
  {
  }

  lemma InsertBySorted<T>(s: seq<T>, v: T, key: T -> real)
    requires SortedBy(s, key)
    ensures SortedBy(InsertBy(s, v, key), key)
  {
    var k := InsertPos(s, v, key);
    var r := InsertBy(s, v, key);
    forall i, j | 0 <= i <= j < |r|
      ensures key(r[i]) <= key(r[j])
    {
      InsertByAt(s, v, key, i);
      InsertByAt(s, v, key, j);
      if j > k {
        assert key(v) < key(s[k]) <= key(s[j - 1]);
        if i < k {
          assert key(s[i]) <= key(v);
        } else if i > k {
          assert key(s[i - 1]) <= key(s[j - 1]);
        }
      } else if j == k && i < k {
        assert key(s[i]) <= key(v);
      }
    }
  }

  /** Inserting an index larger than every index already placed keeps the
      order among equal keys. */
  lemma InsertByStable(s: seq<nat>, v: nat, key: nat -> real)
    requires SortedBy(s, key) && StableIndexOrder(s, key)
    requires forall x :: x in s ==> x < v
    ensures StableIndexOrder(InsertBy(s, v, key), key)
  {
    var k := InsertPos(s, v, key);
    var r := InsertBy(s, v, key);
    forall a, b | 0 <= a < b < |r| && key(r[a]) == key(r[b])
      ensures r[a] < r[b]
    {
      InsertByAt(s, v, key, a);
      InsertByAt(s, v, key, b);
      if a == k {
        // `v` is strictly below every later key
        assert false;
      } else if b == k {
        assert s[a] in s;
      } else if a > k {
        assert s[a - 1] < s[b - 1];
      } else if b > k {
        // a key before the insertion point is strictly below one after it
        assert false;
      }
    }
  }

  /** A stable sort of values by key. */
  method SortBy<T>(s: seq<T>, key: T -> real) returns (r: seq<T>)
    ensures SortedBy(r, key)
    ensures multiset(r) == multiset(s)
  {
    r := [];
    for i := 0 to |s|
      invariant SortedBy(r, key)
      invariant multiset(r) == multiset(s[..i])
    {
      assert s[..i + 1] == s[..i] + [s[i]];
      InsertBySorted(r, s[i], key);
      r := InsertBy(r, s[i], key);
    }
    assert s[..|s|] == s;
  }

  /** `(0..n).collect()` */
  function Range(n: nat): (r: seq<nat>)
    ensures |r| == n && forall i :: 0 <= i < n ==> r[i] == i
  {
    seq(n, i => i)
  }

  /** Indices `0..n` sorted stably by `key`: a permutation of the indices,
      ordered by key, equal keys in increasing index order. */
  method SortIndicesBy(n: nat, key: nat -> real) returns (r: seq<nat>)
    ensures multiset(r) == multiset(Range(n))
    ensures SortedBy(r, key)
    ensures StableIndexOrder(r, key)
  {
    r := [];
    for i: nat := 0 to n
      invariant SortedBy(r, key) && StableIndexOrder(r, key)
      invariant multiset(r) == multiset(Range(i))
    {
      assert Range(i + 1) == Range(i) + [i];
      forall x | x in r
        ensures x < i
      {
        assert x in multiset(Range(i));
      }
      InsertBySorted(r, i, key);
      InsertByStable(r, i, key);
      r := InsertBy(r, i, key);
    }
  }

  /** The sorted indices name every index exactly once. */
  lemma SortedIndicesArePermutation(r: seq<nat>, n: nat)
    requires multiset(r) == multiset(Range(n))
    ensures |r| == n
    ensures forall i :: 0 <= i < |r| ==> r[i] < n
    ensures forall i :: 0 <= i < n ==> i in r
  {
    assert |multiset(r)| == |multiset(Range(n))|;
    forall i | 0 <= i < |r|
      ensures r[i] < n
    {
      assert r[i] in multiset(r);
    }
    forall i | 0 <= i < n
      ensures i in r
    {
      assert Range(n)[i] == i;
      assert i in multiset(Range(n));
    }
  }
}
