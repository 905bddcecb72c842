/** The KO abundance table and the whole-table reductions the analysis uses:
    sums, counts of positive entries and means, each taken over a row (one KO
    across samples) or a column (one sample across KOs). */
module Tables {
  import opened Wrappers

  /** A KO-by-sample table: `values[i][j]` is the abundance of KO `kos[i]` in
      sample `samples[j]`. */
  datatype Table<V> = Table(kos: seq<string>, samples: seq<string>, values: seq<seq<V>>)

  /** One value per (KO, sample) cell, as in any data frame. */
  predicate Rectangular<V>(t: Table<V>) {
    && |t.values| == |t.kos|
    && forall i :: 0 <= i < |t.values| ==> |t.values[i]| == |t.samples|
  }

  /** KO labels identify rows: pandas label lookups (`loc`, aligned column
      assignment) are only single-row lookups under this condition. */
  predicate DistinctKos<V>(t: Table<V>) {
    forall i, j :: 0 <= i < j < |t.kos| ==> t.kos[i] != t.kos[j]
  }

  predicate WellFormed<V>(t: Table<V>) {
    Rectangular(t) && DistinctKos(t)
  }

  predicate NonNegative(t: Table<real>) {
    forall i, j :: 0 <= i < |t.values| && 0 <= j < |t.values[i]| ==> t.values[i][j] >= 0.0
  }

  /** Sum of a sequence of abundances, accumulated left to right. */
  function Sum(s: seq<real>): real {
    if s == [] then 0.0 else Sum(s[..|s| - 1]) + s[|s| - 1]
  }

  /** Number of strictly positive entries, as `(x > 0).sum()`. */
  function CountPositive(s: seq<real>): nat {
    if s == [] then 0 else CountPositive(s[..|s| - 1]) + (if s[|s| - 1] > 0.0 then 1 else 0)
  }

  /** The positions holding a strictly positive entry. */
  function PositiveIndices(s: seq<real>): set<nat> {
    set k: nat | k < |s| && s[k] > 0.0
  }

  /** Sample `j` across all KOs. */
  function Column<V>(t: Table<V>, j: nat): (c: seq<V>)
    requires Rectangular(t) && j < |t.samples|
    ensures |c| == |t.kos|
    ensures forall i :: 0 <= i < |c| ==> c[i] == t.values[i][j]
  {
    seq(|t.values|, i requires 0 <= i < |t.values| => t.values[i][j])
  }

  /** The values of a column none of whose cells is NaN. */
  function Values(c: seq<Option<real>>): (v: seq<real>)
    requires forall k :: 0 <= k < |c| ==> c[k].Some?
    ensures |v| == |c| && forall k :: 0 <= k < |c| ==> c[k] == Some(v[k])
  {
    seq(|c|, k requires 0 <= k < |c| => c[k].value)
  }

  /** `numpy.mean`: the sum divided by the count, NaN (None) when empty. */
  function Mean(s: seq<real>): (m: Option<real>)
    ensures m.Some? <==> |s| > 0
    ensures m.Some? ==> m.value * (|s| as real) == Sum(s)
  {
    if |s| == 0 then None else Some(Sum(s) / (|s| as real))
  }

  /** The first position holding `x`, if any. */
  function IndexOf(s: seq<string>, x: string): (r: Option<nat>)
    ensures r.None? <==> x !in s
    ensures r.Some? ==> r.value < |s| && s[r.value] == x
  {
    if s == [] then None
    else if s[0] == x then Some(0)
    else match IndexOf(s[1..], x)
      case None => None
      case Some(k) => Some(k + 1)
  }

  /** A label's first position is the one the lookup finds. */
  lemma IndexOfFirstOccurrence(s: seq<string>, x: string, i: nat)
    requires i < |s| && s[i] == x && x !in s[..i]
    ensures IndexOf(s, x) == Some(i)
  {
    IndexOfIsFirst(s, x);
  }

  /** The position found is the first one holding `x`. */
  lemma {:induction false} IndexOfIsFirst(s: seq<string>, x: string)
    requires x in s
    ensures forall k :: 0 <= k < IndexOf(s, x).value ==> s[k] != x
  {
    if s[0] != x {
      IndexOfIsFirst(s[1..], x);
      forall k | 0 < k < IndexOf(s, x).value ensures s[k] != x {
        assert s[k] == s[1..][k - 1];
      }
    }
  }

  /** Boolean-mask selection `df[mask]`: the rows for which `keep` holds, each
      with its multiplicity. */
  function Filter<T>(s: seq<T>, keep: T -> bool): seq<T> {
    if s == [] then []
    else (if keep(s[0]) then [s[0]] else []) + Filter(s[1..], keep)
  }

  /** Selection keeps every row satisfying `keep`, as often as it occurs, and
      drops every other row. */
  lemma {:induction false} FilterCounts<T(!new)>(s: seq<T>, keep: T -> bool)
    ensures forall x :: multiset(Filter(s, keep))[x] == if keep(x) then multiset(s)[x] else 0
  {
    if s != [] {
      assert s == [s[0]] + s[1..];
      FilterCounts(s[1..], keep);
    }
  }

  /** Selection keeps the order of the rows it keeps: it distributes over
      concatenation. */
  lemma {:induction false} FilterAppend<T(!new)>(a: seq<T>, b: seq<T>, keep: T -> bool)
    ensures Filter(a + b, keep) == Filter(a, keep) + Filter(b, keep)
  {
    if a == [] {
      assert a + b == b;
    } else {
      var head: seq<T> := if keep(a[0]) then [a[0]] else [];
      assert (a + b)[0] == a[0];
      assert (a + b)[1..] == a[1..] + b;
      assert Filter(a + b, keep) == head + Filter(a[1..] + b, keep);
      assert Filter(a, keep) == head + Filter(a[1..], keep);
      FilterAppend(a[1..], b, keep);
    }
  }

  /** Filtering twice is filtering once by both conditions, in the same
      order. */
  lemma {:induction false} FilterFilter<T>(s: seq<T>, p: T -> bool, q: T -> bool, both: T -> bool)
    requires forall x :: both(x) == (p(x) && q(x))
    ensures Filter(Filter(s, p), q) == Filter(s, both)
  {
    if s != [] {
      FilterFilter(s[1..], p, q, both);
      var rest := Filter(s[1..], p);
      if p(s[0]) {
        assert Filter(s, p) == [s[0]] + rest;
        assert ([s[0]] + rest)[1..] == rest;
      } else {
        assert Filter(s, p) == rest;
      }
    }
  }

  /** Two conditions that agree everywhere select the same rows. */
  lemma {:induction false} FilterSame<T>(s: seq<T>, p: T -> bool, q: T -> bool)
    requires forall x :: p(x) == q(x)
    ensures Filter(s, p) == Filter(s, q)
  {
    if s != [] {
      FilterSame(s[1..], p, q);
    }
  }

  /** The sample metadata: named columns of text cells, one row per sample. */
  datatype Metadata = Metadata(columns: seq<string>, rows: seq<seq<string>>)

  predicate MetadataWellFormed(m: Metadata) {
    forall i :: 0 <= i < |m.rows| ==> |m.rows[i]| == |m.columns|
  }

  /** The cells of column `c`, in row order, as `metadata[name].tolist()`. */
  function ColumnValues(m: Metadata, c: nat): (v: seq<string>)
    requires MetadataWellFormed(m) && c < |m.columns|
    ensures |v| == |m.rows| && forall i :: 0 <= i < |v| ==> v[i] == m.rows[i][c]
  {
    seq(|m.rows|, i requires 0 <= i < |m.rows| => m.rows[i][c])
  }

  lemma {:induction false} CountPositiveIsCardinality(s: seq<real>)
    ensures CountPositive(s) == |PositiveIndices(s)|
    ensures CountPositive(s) <= |s|
  {
    if s != [] {
      var p := s[..|s| - 1];
      CountPositiveIsCardinality(p);
      var n := |s| - 1;
      assert PositiveIndices(s) == PositiveIndices(p) + (if s[n] > 0.0 then {n} else {});
      assert n !in PositiveIndices(p);
    }
  }

  /** Zero entries never count: only the positions of positive entries matter. */
  lemma {:induction false} CountPositiveIgnoresNonPositive(s: seq<real>, t: seq<real>)
    requires |s| == |t|
    requires forall k :: 0 <= k < |s| ==> (s[k] > 0.0 <==> t[k] > 0.0)
    ensures CountPositive(s) == CountPositive(t)
  {
    CountPositiveIsCardinality(s);
    CountPositiveIsCardinality(t);
    assert PositiveIndices(s) == PositiveIndices(t);
  }

  lemma {:induction false} ElementAtMostSum(s: seq<real>, k: nat)
    requires forall i :: 0 <= i < |s| ==> s[i] >= 0.0
    requires k < |s|
    ensures 0.0 <= s[k] <= Sum(s)
    ensures Sum(s) >= 0.0
  {
    var n := |s| - 1;
    if k < n {
      ElementAtMostSum(s[..n], k);
    } else if n > 0 {
      ElementAtMostSum(s[..n], 0);
    }
  }

  /** Dividing every entry by a nonzero total divides the sum by it. */
  lemma {:induction false} SumScaled(s: seq<real>, scaled: seq<real>, total: real)
    requires total != 0.0
    requires |scaled| == |s|
    requires forall k :: 0 <= k < |s| ==> scaled[k] == s[k] / total
    ensures Sum(scaled) == Sum(s) / total
  {
    if s != [] {
      var n := |s| - 1;
      SumScaled(s[..n], scaled[..n], total);
      assert Sum(s[..n]) / total + s[n] / total == (Sum(s[..n]) + s[n]) / total;
    }
  }

  /** For rows of the same positive length, comparing means is comparing sums. */
  lemma MeanOrderIsSumOrder(a: seq<real>, b: seq<real>)
    requires |a| == |b| > 0
    ensures Mean(a).value >= Mean(b).value <==> Sum(a) >= Sum(b)
  {
    ScaledOrder(Mean(a).value, Mean(b).value, Sum(a), Sum(b), |a| as real);
  }

  /** Two values scaled by the same positive factor keep their order. */
  lemma ScaledOrder(x: real, y: real, sx: real, sy: real, n: real)
    requires n > 0.0 && x * n == sx && y * n == sy
    ensures x >= y <==> sx >= sy
  {
    assert sx - sy == (x - y) * n;
    if x >= y {
      assert (x - y) * n >= 0.0;
    } else {
      assert (y - x) * n > 0.0;
    }
  }

  /** A count out of `n` positions, divided by `n`, is a fraction in [0, 1]. */
  lemma FractionBounds(c: real, n: real)
    requires 0.0 <= c <= n && n > 0.0
    ensures 0.0 <= c / n <= 1.0
  {
    var q := c / n;
    assert q * n == c;
    assert q > 1.0 ==> (q - 1.0) * n > 0.0;
    assert q < 0.0 ==> (0.0 - q) * n > 0.0;
  }
}
