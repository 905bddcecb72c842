/** Ranking by a key, as pandas `sort_values(ascending=False)` followed by
    `head(n)`. pandas' default sort is not stable, so everything here is stated
    only up to the order of rows with equal keys. */
module Ranking {

  predicate NonIncreasing<T>(s: seq<T>, key: T -> real) {
    forall i, j :: 0 <= i < j < |s| ==> key(s[i]) >= key(s[j])
  }

  function InsertDesc<T(==)>(x: T, s: seq<T>, key: T -> real): (r: seq<T>)
    requires NonIncreasing(s, key)
    ensures NonIncreasing(r, key)
    ensures multiset(r) == multiset(s) + multiset{x}
  {
    if s == [] || key(x) >= key(s[0]) then [x] + s
    else
      var tail := InsertDesc(x, s[1..], key);
      BoundedByHead(x, s, tail, key);
      assert s == [s[0]] + s[1..];
      [s[0]] + tail
  }

  lemma BoundedByHead<T>(x: T, s: seq<T>, tail: seq<T>, key: T -> real)
    requires NonIncreasing(s, key) && NonIncreasing(tail, key)
    requires s != [] && key(x) < key(s[0])
    requires multiset(tail) == multiset(s[1..]) + multiset{x}
    ensures NonIncreasing([s[0]] + tail, key)
  {
    forall k | 0 <= k < |tail| ensures key(tail[k]) <= key(s[0]) {
      assert tail[k] in multiset(tail);
      if tail[k] != x {
        assert tail[k] in multiset(s[1..]);
        assert tail[k] in s[1..];
      }
    }
  }

  /** A permutation of `s` in non-increasing order of `key`. */
  function SortDesc<T(==)>(s: seq<T>, key: T -> real): (r: seq<T>)
    ensures NonIncreasing(r, key)
    ensures multiset(r) == multiset(s)
  {
    if s == [] then []
    else
      assert s == [s[0]] + s[1..];
      InsertDesc(s[0], SortDesc(s[1..], key), key)
  }

  /** The length of `head(n)` on `len` rows: the first `n` rows, or for a
      negative `n` all rows except the last `-n`. */
  function HeadLength(len: nat, n: int): (k: nat)
    ensures k <= len
    ensures n >= 0 ==> k <= n && (k < n ==> k == len)
    ensures n < 0 ==> (k == len + n || (k == 0 && len <= -n))
  {
    if n >= 0 then (if n < len then n else len)
    else if len + n > 0 then len + n else 0
  }

  /** `sort_values(ascending=False).head(n)`: the best rows of `s` by `key`,
      best first; every row left out has a key no larger than any row kept. */
  function TopN<T(==)>(s: seq<T>, n: int, key: T -> real): (r: seq<T>)
    ensures |r| == HeadLength(|s|, n)
    ensures NonIncreasing(r, key)
    ensures multiset(r) <= multiset(s)
    ensures forall x, y :: x in multiset(s) - multiset(r) && y in r ==> key(y) >= key(x)
  {
    var sorted := SortDesc(s, key);
    assert |sorted| == |multiset(sorted)| == |multiset(s)| == |s|;
    var m := HeadLength(|s|, n);
    PrefixDominates(sorted, m, key);
    sorted[..m]
  }

  lemma PrefixDominates<T>(sorted: seq<T>, m: nat, key: T -> real)
    requires NonIncreasing(sorted, key) && m <= |sorted|
    ensures multiset(sorted[..m]) <= multiset(sorted)
    ensures forall x, y :: x in multiset(sorted) - multiset(sorted[..m]) && y in sorted[..m] ==> key(y) >= key(x)
  {
    var r, rest := sorted[..m], sorted[m..];
    assert sorted == r + rest;
    assert multiset(sorted) == multiset(r) + multiset(rest);
    assert multiset(sorted) - multiset(r) == multiset(rest);
    forall x, y | x in multiset(sorted) - multiset(r) && y in r ensures key(y) >= key(x) {
      assert x in rest;
      var k :| 0 <= k < |rest| && rest[k] == x;
      var i :| 0 <= i < |r| && r[i] == y;
      assert sorted[i] == y && sorted[m + k] == x;
    }
  }

  /** A sub-multiset of a duplicate-free sequence is duplicate-free. */
  lemma SubMultisetDistinct<T>(s: seq<T>, r: seq<T>)
    requires forall i, j :: 0 <= i < j < |s| ==> s[i] != s[j]
    requires multiset(r) <= multiset(s)
    ensures forall i, j :: 0 <= i < j < |r| ==> r[i] != r[j]
  {
    forall i, j | 0 <= i < j < |r| ensures r[i] != r[j] {
      if r[i] == r[j] {
        TwiceCounted(r, i, j);
        OnceCounted(s, r[i]);
        assert false;
      }
    }
  }

  lemma TwiceCounted<T>(s: seq<T>, i: nat, j: nat)
    requires i < j < |s| && s[i] == s[j]
    ensures multiset(s)[s[i]] >= 2
  {
    assert s == s[..i] + [s[i]] + s[i + 1..j] + [s[j]] + s[j + 1..];
  }

  lemma {:induction false} OnceCounted<T>(s: seq<T>, x: T)
    requires forall i, j :: 0 <= i < j < |s| ==> s[i] != s[j]
    ensures multiset(s)[x] <= 1
  {
    if s != [] {
      OnceCounted(s[1..], x);
      assert s == [s[0]] + s[1..];
      if s[0] == x {
        assert x !in s[1..];
      }
    }
  }
}
