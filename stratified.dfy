/** The taxon-stratified KO table (one row per KO and contributing taxon) and
    its two reductions: collapsing taxa into a KO-by-sample table, and summing
    each (KO, taxon) pair over all samples. */
module Stratified {
  import opened Tables
  import opened Order
  import opened Grouping

  /** Abundance of `ko` contributed by `taxon`, one value per sample. */
  datatype StratifiedRow = StratifiedRow(ko: string, taxon: string, values: seq<real>)

  /** The columns other than "KO" and "Taxon" are the samples. */
  datatype StratifiedTable = StratifiedTable(samples: seq<string>, rows: seq<StratifiedRow>)

  /** One row of summed abundance per (KO, taxon) pair. */
  datatype TaxonAbundance = TaxonAbundance(ko: string, taxon: string, abundance: real)

  /** Every row has one value per sample. */
  predicate Aligned(s: StratifiedTable) {
    forall i :: 0 <= i < |s.rows| ==> |s.rows[i].values| == |s.samples|
  }

  /** The KO of every row, in row order. */
  function RowKos(s: StratifiedTable): (r: seq<string>)
    ensures |r| == |s.rows| && forall i :: 0 <= i < |r| ==> r[i] == s.rows[i].ko
  {
    seq(|s.rows|, i requires 0 <= i < |s.rows| => s.rows[i].ko)
  }

  /** Sample `j` of every row, keyed by the row's KO. */
  function SampleEntries(s: StratifiedTable, j: nat): (e: seq<(string, real)>)
    requires Aligned(s) && j < |s.samples|
    ensures |e| == |s.rows|
    ensures forall i :: 0 <= i < |e| ==> e[i] == (s.rows[i].ko, s.rows[i].values[j])
  {
    seq(|s.rows|, i requires 0 <= i < |s.rows| => (s.rows[i].ko, s.rows[i].values[j]))
  }

  /** Collapses taxa: `groupby("KO")[sample_cols].sum()` indexed by KO. The
      KOs come out sorted and distinct, one row per KO of the input, and each
      cell is the total of that KO's rows in that sample. */
  function StratifiedToKoTable(s: StratifiedTable): (t: Table<real>)
    requires Aligned(s)
    ensures t.samples == s.samples && WellFormed(t)
    ensures StrictlySorted(t.kos, StrLt)
    ensures Elements(t.kos) == Elements(RowKos(s))
    ensures forall i, j :: 0 <= i < |t.kos| && 0 <= j < |t.samples| ==>
              t.values[i][j] == GroupTotal(SampleEntries(s, j), t.kos[i])
  {
    StrLtIsStrictTotalOrder();
    var kos := SortedUnique(RowKos(s), StrLt);
    Table(kos, s.samples,
          seq(|kos|, i requires 0 <= i < |kos| =>
            seq(|s.samples|, j requires 0 <= j < |s.samples| => GroupTotal(SampleEntries(s, j), kos[i]))))
  }

  /** Collapsing taxa neither loses nor double-counts abundance: every sample's
      total in the KO table equals its total over the stratified rows. */
  lemma StratifiedToKoTablePreservesSampleTotals(s: StratifiedTable, j: nat)
    requires Aligned(s) && j < |s.samples|
    ensures Sum(Column(StratifiedToKoTable(s), j)) == Sum(Amounts(SampleEntries(s, j)))
  {
    var t := StratifiedToKoTable(s);
    var e := SampleEntries(s, j);
    forall i | 0 <= i < |e| ensures e[i].0 in t.kos {
      assert e[i].0 == RowKos(s)[i];
      assert e[i].0 in Elements(RowKos(s));
    }
    assert Column(t, j) == GroupTotals(t.kos, e);
    GroupTotalsPreserveSum(t.kos, e);
  }

  /** The total over all samples of each row, keyed by (KO, taxon). */
  function PairEntries(s: StratifiedTable): (e: seq<((string, string), real)>)
    ensures |e| == |s.rows|
    ensures forall i :: 0 <= i < |e| ==> e[i] == ((s.rows[i].ko, s.rows[i].taxon), Sum(s.rows[i].values))
  {
    seq(|s.rows|, i requires 0 <= i < |s.rows| => ((s.rows[i].ko, s.rows[i].taxon), Sum(s.rows[i].values)))
  }

  function Pairs(s: StratifiedTable): (p: seq<(string, string)>)
    ensures |p| == |s.rows| && forall i :: 0 <= i < |p| ==> p[i] == (s.rows[i].ko, s.rows[i].taxon)
  {
    seq(|s.rows|, i requires 0 <= i < |s.rows| => (s.rows[i].ko, s.rows[i].taxon))
  }

  function SummaryKeys(r: seq<TaxonAbundance>): (k: seq<(string, string)>)
    ensures |k| == |r| && forall i :: 0 <= i < |k| ==> k[i] == (r[i].ko, r[i].taxon)
  {
    seq(|r|, i requires 0 <= i < |r| => (r[i].ko, r[i].taxon))
  }

  /** Melts the table to one (KO, taxon, sample) record per cell and sums the
      records of each (KO, taxon) pair. With no sample columns the melted table
      is empty, and so is the summary; otherwise there is one row per distinct
      pair, in sorted order, holding that pair's total over all samples. */
  function SummarizeStratified(s: StratifiedTable): (r: seq<TaxonAbundance>)
    ensures |s.samples| == 0 ==> r == []
    ensures |s.samples| > 0 ==> Elements(SummaryKeys(r)) == Elements(Pairs(s))
    ensures StrictlySorted(SummaryKeys(r), PairLt)
    ensures forall i :: 0 <= i < |r| ==> r[i].abundance == GroupTotal(PairEntries(s), SummaryKeys(r)[i])
  {
    if |s.samples| == 0 then []
    else
      PairLtIsStrictTotalOrder();
      var keys := SortedUnique(Pairs(s), PairLt);
      var r := seq(|keys|, i requires 0 <= i < |keys| =>
                 TaxonAbundance(keys[i].0, keys[i].1, GroupTotal(PairEntries(s), keys[i])));
      assert SummaryKeys(r) == keys;
      r
  }

  function Abundances(r: seq<TaxonAbundance>): (a: seq<real>)
    ensures |a| == |r| && forall i :: 0 <= i < |a| ==> a[i] == r[i].abundance
  {
    seq(|r|, i requires 0 <= i < |r| => r[i].abundance)
  }

  /** Summing per (KO, taxon) pair preserves the grand total of the table
      whenever there is at least one sample column. */
  lemma SummaryPreservesGrandTotal(s: StratifiedTable)
    requires |s.samples| > 0
    ensures Sum(Abundances(SummarizeStratified(s))) == Sum(Amounts(PairEntries(s)))
  {
    var r := SummarizeStratified(s);
    var keys := SummaryKeys(r);
    var e := PairEntries(s);
    PairLtIsStrictTotalOrder();
    forall i | 0 <= i < |e| ensures e[i].0 in keys {
      assert e[i].0 == Pairs(s)[i];
      assert e[i].0 in Elements(Pairs(s));
    }
    assert Abundances(r) == GroupTotals(keys, e);
    GroupTotalsPreserveSum(keys, e);
  }
}
