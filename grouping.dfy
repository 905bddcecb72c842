/** Group-by-sum over keyed amounts, as pandas `groupby(key).sum()`: every
    amount lands in exactly one group, so the group totals add up to the
    grand total. */
module Grouping {
  import opened Tables

  /** The amounts of the entries, in order. */
  function Amounts<K>(entries: seq<(K, real)>): (a: seq<real>)
    ensures |a| == |entries| && forall i :: 0 <= i < |a| ==> a[i] == entries[i].1
  {
    seq(|entries|, i requires 0 <= i < |entries| => entries[i].1)
  }

  /** The sum of the amounts of the entries whose key is `key`. */
  function GroupTotal<K(==)>(entries: seq<(K, real)>, key: K): real {
    if entries == [] then 0.0
    else
      var last := entries[|entries| - 1];
      GroupTotal(entries[..|entries| - 1], key) + (if last.0 == key then last.1 else 0.0)
  }

  /** One group total per key. */
  function GroupTotals<K(==)>(keys: seq<K>, entries: seq<(K, real)>): (g: seq<real>)
    ensures |g| == |keys| && forall k :: 0 <= k < |g| ==> g[k] == GroupTotal(entries, keys[k])
  {
    seq(|keys|, k requires 0 <= k < |keys| => GroupTotal(entries, keys[k]))
  }

  predicate DistinctKeys<K(==)>(keys: seq<K>) {
    forall i, j :: 0 <= i < j < |keys| ==> keys[i] != keys[j]
  }

  /** Grouping by distinct keys that cover every entry loses and duplicates
      nothing: the group totals sum to the sum of all amounts. */
  lemma {:induction false} GroupTotalsPreserveSum<K>(keys: seq<K>, entries: seq<(K, real)>)
    requires DistinctKeys(keys)
    requires forall i :: 0 <= i < |entries| ==> entries[i].0 in keys
    ensures Sum(GroupTotals(keys, entries)) == Sum(Amounts(entries))
  {
    if entries == [] {
      ZeroSum(GroupTotals(keys, entries));
    } else {
      var n := |entries| - 1;
      var p, last := entries[..n], entries[n];
      GroupTotalsPreserveSum(keys, p);
      var m :| 0 <= m < |keys| && keys[m] == last.0;
      var single := seq(|keys|, k requires 0 <= k < |keys| => if k == m then last.1 else 0.0);
      SumPointwise(GroupTotals(keys, p), single, GroupTotals(keys, entries));
      SumSingleNonzero(single, m);
      assert Amounts(entries)[..n] == Amounts(p);
    }
  }

  lemma {:induction false} ZeroSum(s: seq<real>)
    requires forall i :: 0 <= i < |s| ==> s[i] == 0.0
    ensures Sum(s) == 0.0
  {
    if s != [] { ZeroSum(s[..|s| - 1]); }
  }

  lemma {:induction false} SumPointwise(a: seq<real>, b: seq<real>, c: seq<real>)
    requires |a| == |b| == |c|
    requires forall i :: 0 <= i < |c| ==> c[i] == a[i] + b[i]
    ensures Sum(c) == Sum(a) + Sum(b)
  {
    if c != [] {
      var n := |c| - 1;
      SumPointwise(a[..n], b[..n], c[..n]);
    }
  }

  lemma {:induction false} SumSingleNonzero(s: seq<real>, m: nat)
    requires m < |s|
    requires forall i :: 0 <= i < |s| && i != m ==> s[i] == 0.0
    ensures Sum(s) == s[m]
  {
    var n := |s| - 1;
    if m == n {
      ZeroSum(s[..n]);
    } else {
      SumSingleNonzero(s[..n], m);
    }
  }
}
