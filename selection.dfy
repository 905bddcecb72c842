/** Feature selection: the most abundant KOs over time (`top_kos_over_time`)
    and the annotated, filtered top-N list (`generate_top30`). */
module Selection {
  import opened Wrappers
  import opened Tables
  import opened Ranking
  import opened Abundance

  /** A KO row of the table: its label and its abundances. */
  type KoRow = (string, seq<real>)

  /** All KOs share the sample count, so ranking by mean is ranking by total. */
  function RowTotal(row: KoRow): real {
    Sum(row.1)
  }

  function Rows(t: Table<real>): (rows: seq<KoRow>)
    requires Rectangular(t)
    ensures |rows| == |t.kos|
    ensures forall i :: 0 <= i < |rows| ==> rows[i] == (t.kos[i], t.values[i])
  {
    seq(|t.kos|, i requires 0 <= i < |t.kos| => (t.kos[i], t.values[i]))
  }

  /** `ko_table.loc[mean.sort_values(ascending=False).head(top_n).index]`. */
  function TopKosOverTime(t: Table<real>, topN: int): (r: Table<real>)
    requires WellFormed(t)
    ensures r.samples == t.samples && Rectangular(r)
    ensures |r.kos| == HeadLength(|t.kos|, topN)
    ensures topN >= 0 ==> |r.kos| <= topN
    ensures DistinctKos(r)
    ensures forall k :: 0 <= k < |r.kos| ==> (r.kos[k], r.values[k]) in Rows(t)
    ensures |t.samples| > 0 ==> MeansNonIncreasing(r)
    ensures |t.samples| > 0 ==> LeftOutDominated(t, r)
  {
    var rows := Rows(t);
    var top := TopN(rows, topN, RowTotal);
    var r := TableOf(top, t.samples);
    SelectedAreRows(rows, top);
    SelectedDistinct(t, rows, top);
    TopKosShape(t, rows, top, r);
    TopKosMeanOrder(t, rows, top, r);
    TopKosDominance(t, topN, rows, top, r);
    r
  }

  /** The table whose rows are `rows`, in order. */
  function TableOf(rows: seq<KoRow>, samples: seq<string>): (r: Table<real>)
    ensures r.samples == samples && |r.kos| == |r.values| == |rows|
    ensures forall k :: 0 <= k < |rows| ==> r.kos[k] == rows[k].0 && r.values[k] == rows[k].1
  {
    Table(seq(|rows|, k requires 0 <= k < |rows| => rows[k].0), samples,
          seq(|rows|, k requires 0 <= k < |rows| => rows[k].1))
  }

  /** Row means never increase down the table. */
  predicate MeansNonIncreasing(r: Table<real>)
    requires Rectangular(r) && |r.samples| > 0
  {
    forall k, l :: 0 <= k < l < |r.kos| ==> Mean(r.values[k]).value >= Mean(r.values[l]).value
  }

  /** Every KO of `t` missing from `r` has a mean at most that of each row of
      `r`. */
  predicate LeftOutDominated(t: Table<real>, r: Table<real>)
    requires Rectangular(t) && Rectangular(r) && r.samples == t.samples && |t.samples| > 0
  {
    forall k, i :: 0 <= k < |r.kos| && 0 <= i < |t.kos| && t.kos[i] !in r.kos ==>
      Mean(r.values[k]).value >= Mean(t.values[i]).value
  }

  lemma TopKosShape(t: Table<real>, rows: seq<KoRow>, top: seq<KoRow>, r: Table<real>)
    requires WellFormed(t) && rows == Rows(t)
    requires forall k :: 0 <= k < |top| ==> top[k] in rows
    requires forall k, l :: 0 <= k < l < |top| ==> top[k].0 != top[l].0
    requires r.samples == t.samples && |r.kos| == |r.values| == |top|
    requires forall k :: 0 <= k < |top| ==> r.kos[k] == top[k].0 && r.values[k] == top[k].1
    ensures Rectangular(r) && DistinctKos(r)
    ensures forall k :: 0 <= k < |r.kos| ==> (r.kos[k], r.values[k]) in Rows(t)
  {
    forall k | 0 <= k < |r.kos| ensures (r.kos[k], r.values[k]) in Rows(t) && |r.values[k]| == |t.samples| {
      assert (r.kos[k], r.values[k]) == top[k];
      var i :| 0 <= i < |rows| && rows[i] == top[k];
    }
  }

  lemma TopKosMeanOrder(t: Table<real>, rows: seq<KoRow>, top: seq<KoRow>, r: Table<real>)
    requires Rectangular(t) && Rectangular(r) && r.samples == t.samples
    requires NonIncreasing(top, RowTotal) && |r.values| == |top|
    requires forall k :: 0 <= k < |top| ==> r.values[k] == top[k].1
    ensures |t.samples| > 0 ==> MeansNonIncreasing(r)
  {
    forall k, l | 0 <= k < l < |r.kos| && |t.samples| > 0 ensures Mean(r.values[k]).value >= Mean(r.values[l]).value {
      assert RowTotal(top[k]) >= RowTotal(top[l]);
      MeanOrderIsSumOrder(r.values[k], r.values[l]);
    }
  }

  lemma TopKosDominance(t: Table<real>, topN: int, rows: seq<KoRow>, top: seq<KoRow>, r: Table<real>)
    requires WellFormed(t) && rows == Rows(t) && top == TopN(rows, topN, RowTotal)
    requires Rectangular(r) && r.samples == t.samples && |r.kos| == |top|
    requires forall k :: 0 <= k < |top| ==> r.kos[k] == top[k].0 && r.values[k] == top[k].1
    ensures |t.samples| > 0 ==> LeftOutDominated(t, r)
  {
    forall k, i | 0 <= k < |r.kos| && 0 <= i < |t.kos| && t.kos[i] !in r.kos && |t.samples| > 0
      ensures Mean(r.values[k]).value >= Mean(t.values[i]).value
    {
      forall m | 0 <= m < |top| ensures top[m].0 != t.kos[i] {
        assert r.kos[m] == top[m].0;
      }
      LeftOutIsDominated(t, topN, rows, top, k, i);
      MeanOrderIsSumOrder(r.values[k], t.values[i]);
    }
  }

  lemma SelectedAreRows(rows: seq<KoRow>, top: seq<KoRow>)
    requires multiset(top) <= multiset(rows)
    ensures forall k :: 0 <= k < |top| ==> top[k] in rows
  {
    forall k | 0 <= k < |top| ensures top[k] in rows {
      assert top[k] in multiset(rows);
    }
  }

  lemma SelectedDistinct(t: Table<real>, rows: seq<KoRow>, top: seq<KoRow>)
    requires WellFormed(t) && rows == Rows(t) && multiset(top) <= multiset(rows)
    ensures forall k, l :: 0 <= k < l < |top| ==> top[k].0 != top[l].0
  {
    SelectedAreRows(rows, top);
    SubMultisetDistinct(rows, top);
    forall k, l | 0 <= k < l < |top| ensures top[k].0 != top[l].0 {
      var i :| 0 <= i < |rows| && top[k] == rows[i];
      var j :| 0 <= j < |rows| && top[l] == rows[j];
      assert i != j;
    }
  }

  lemma LeftOutIsDominated(t: Table<real>, topN: int, rows: seq<KoRow>, top: seq<KoRow>, k: nat, i: nat)
    requires WellFormed(t) && rows == Rows(t) && top == TopN(rows, topN, RowTotal)
    requires k < |top| && i < |t.kos|
    requires forall m :: 0 <= m < |top| ==> top[m].0 != t.kos[i]
    ensures Sum(top[k].1) >= Sum(t.values[i])
  {
    assert rows[i] !in multiset(top);
    assert rows[i] in multiset(rows) - multiset(top);
    assert top[k] in top;
  }

  /** One row of the annotation table: the KO, its resistance mechanism and
      its other descriptive columns (gene name, antibiotic class, ...). */
  datatype Annotation = Annotation(ko: string, mechanism: string, attributes: seq<string>)

  /** An annotation row with the `mean_abundance` and `prevalence` columns that
      `generate_top30` assigns to it; NaN is None. */
  datatype Top30Row = Top30Row(annotation: Annotation, meanAbundance: Option<real>, prevalence: Option<real>)

  /** The mean abundance aligned to a KO label: NaN when the KO is not in the
      table (or the table has no samples). */
  function MeanOf(t: Table<real>, ko: string): (m: Option<real>)
    requires Rectangular(t)
    ensures m.Some? <==> ko in t.kos && |t.samples| > 0
    ensures m.Some? ==> exists i :: 0 <= i < |t.kos| && t.kos[i] == ko && m == Mean(t.values[i])
  {
    match IndexOf(t.kos, ko)
    case None => None
    case Some(i) => Mean(t.values[i])
  }

  /** The prevalence aligned to a KO label: NaN when the KO is not in the
      table (or the table has no samples). */
  function PrevalenceOf(t: Table<real>, ko: string): (p: Option<real>)
    requires Rectangular(t)
    ensures p.Some? <==> ko in t.kos && |t.samples| > 0
    ensures p.Some? ==> exists i :: 0 <= i < |t.kos| && t.kos[i] == ko && p == Prevalence(t)[i]
  {
    match IndexOf(t.kos, ko)
    case None => None
    case Some(i) => Prevalence(t)[i]
  }

  /** `annotations.set_index("KO").copy()` with the two columns assigned. */
  function Annotate(annotations: seq<Annotation>, t: Table<real>): (merged: seq<Top30Row>)
    requires Rectangular(t)
    ensures |merged| == |annotations|
    ensures forall k :: 0 <= k < |merged| ==>
      merged[k] == Top30Row(annotations[k], MeanOf(t, annotations[k].ko), PrevalenceOf(t, annotations[k].ko))
  {
    seq(|annotations|, k requires 0 <= k < |annotations| =>
      Top30Row(annotations[k], MeanOf(t, annotations[k].ko), PrevalenceOf(t, annotations[k].ko)))
  }

  /** Each annotation keeps its row and position; it carries the mean and
      prevalence of the first table row labelled by its KO, and NaN for both
      when the table has no such row. */
  lemma AnnotateAligns(annotations: seq<Annotation>, t: Table<real>)
    requires Rectangular(t)
    ensures forall k :: 0 <= k < |annotations| ==> Annotate(annotations, t)[k].annotation == annotations[k]
    ensures forall k :: 0 <= k < |annotations| && annotations[k].ko !in t.kos ==>
              Annotate(annotations, t)[k].meanAbundance.None? && Annotate(annotations, t)[k].prevalence.None?
    ensures forall k, i :: 0 <= k < |annotations| && 0 <= i < |t.kos| && t.kos[i] == annotations[k].ko
                           && annotations[k].ko !in t.kos[..i] ==>
              Annotate(annotations, t)[k].meanAbundance == Mean(t.values[i])
              && Annotate(annotations, t)[k].prevalence == Prevalence(t)[i]
  {
    forall k, i | 0 <= k < |annotations| && 0 <= i < |t.kos| && t.kos[i] == annotations[k].ko
                  && annotations[k].ko !in t.kos[..i]
      ensures Annotate(annotations, t)[k].meanAbundance == Mean(t.values[i])
              && Annotate(annotations, t)[k].prevalence == Prevalence(t)[i]
    {
      IndexOfFirstOccurrence(t.kos, annotations[k].ko, i);
    }
  }

  /** `if mechanism_filter:` -- None and the empty list both disable the filter. */
  predicate MechanismFilterActive(mechanismFilter: Option<seq<string>>) {
    mechanismFilter.Some? && |mechanismFilter.value| > 0
  }

  predicate MechanismAllowed(row: Top30Row, allowed: seq<string>) {
    row.annotation.mechanism in allowed
  }

  /** `prevalence >= threshold`; a NaN prevalence fails the comparison. */
  predicate PrevalentEnough(row: Top30Row, threshold: real) {
    row.prevalence.Some? && row.prevalence.value >= threshold
  }

  predicate PassesMechanismFilter(row: Top30Row, mechanismFilter: Option<seq<string>>) {
    MechanismFilterActive(mechanismFilter) ==> MechanismAllowed(row, mechanismFilter.value)
  }

  predicate Eligible(row: Top30Row, threshold: real, mechanismFilter: Option<seq<string>>) {
    PassesMechanismFilter(row, mechanismFilter) && PrevalentEnough(row, threshold)
  }

  /** The filter functions handed to `Filter`, one per boolean mask. */
  function AllowedBy(allowed: seq<string>): Top30Row -> bool {
    row => MechanismAllowed(row, allowed)
  }

  function PrevalentAt(threshold: real): Top30Row -> bool {
    row => PrevalentEnough(row, threshold)
  }

  function EligibleUnder(threshold: real, mechanismFilter: Option<seq<string>>): Top30Row -> bool {
    row => Eligible(row, threshold, mechanismFilter)
  }

  /** The annotated rows that survive both filters. */
  function EligibleRows(merged: seq<Top30Row>, threshold: real, mechanismFilter: Option<seq<string>>): seq<Top30Row> {
    Filter(merged, EligibleUnder(threshold, mechanismFilter))
  }

  /** The mechanism mask (when active) followed by the prevalence mask keeps
      exactly the eligible rows, in their original order. */
  lemma FilterStepsSelectEligible(annotated: seq<Top30Row>, threshold: real, mechanismFilter: Option<seq<string>>)
    ensures MechanismFilterActive(mechanismFilter) ==>
      Filter(Filter(annotated, AllowedBy(mechanismFilter.value)), PrevalentAt(threshold))
        == EligibleRows(annotated, threshold, mechanismFilter)
    ensures !MechanismFilterActive(mechanismFilter) ==>
      Filter(annotated, PrevalentAt(threshold)) == EligibleRows(annotated, threshold, mechanismFilter)
  {
    if MechanismFilterActive(mechanismFilter) {
      FilterFilter(annotated, AllowedBy(mechanismFilter.value), PrevalentAt(threshold),
                   EligibleUnder(threshold, mechanismFilter));
    } else {
      FilterSame(annotated, PrevalentAt(threshold), EligibleUnder(threshold, mechanismFilter));
    }
  }

  /** The sort key of `sort_values("mean_abundance")`. Every row that reaches
      the sort has a mean (see `EligibleRowsHaveMeans`), so the default is
      never consulted. */
  function MeanKey(row: Top30Row): real {
    match row.meanAbundance
    case Some(m) => m
    case None => 0.0
  }

  /** A row whose prevalence is defined names a KO of a table with samples, so
      its mean is defined too. */
  lemma EligibleRowsHaveMeans(annotations: seq<Annotation>, t: Table<real>, row: Top30Row)
    requires WellFormed(t) && row in Annotate(annotations, t) && row.prevalence.Some?
    ensures row.annotation.ko in t.kos && row.annotation in annotations
    ensures row.meanAbundance.Some? && row.meanAbundance == Some(MeanKey(row))
  {
  }

  /** Every row of `top` is an annotated row that passes both filters, names
      a KO of the table and has a mean abundance. */
  predicate SelectedEligible(top: seq<Top30Row>, annotations: seq<Annotation>, t: Table<real>, threshold: real,
                             mechanismFilter: Option<seq<string>>)
    requires Rectangular(t)
  {
    forall row :: row in top ==>
      && row in Annotate(annotations, t)
      && row.annotation in annotations
      && row.annotation.ko in t.kos
      && Eligible(row, threshold, mechanismFilter)
      && row.meanAbundance == Some(MeanKey(row))
  }

  /** Every eligible row of `annotated` left out of `top` has a mean at most
      that of each row of `top`. */
  predicate EligibleLeftOutDominated(top: seq<Top30Row>, annotated: seq<Top30Row>, threshold: real,
                                     mechanismFilter: Option<seq<string>>)
  {
    forall x, y ::
      (x in multiset(annotated) - multiset(top) && y in top && Eligible(x, threshold, mechanismFilter))
      ==> MeanKey(y) >= MeanKey(x)
  }

  /** `generate_top30`: annotate, filter by mechanism (when a non-empty filter
      is given) and by prevalence, then keep the `top_n` rows of highest mean
      abundance, highest first. */
  method GenerateTop30(t: Table<real>, annotations: seq<Annotation>, topN: int, threshold: real,
                       mechanismFilter: Option<seq<string>>)
    returns (top: seq<Top30Row>)
    requires WellFormed(t)
    ensures |top| == HeadLength(|EligibleRows(Annotate(annotations, t), threshold, mechanismFilter)|, topN)
    ensures topN >= 0 ==> |top| <= topN
    ensures SelectedEligible(top, annotations, t, threshold, mechanismFilter)
    ensures multiset(top) <= multiset(Annotate(annotations, t))
    ensures NonIncreasing(top, MeanKey)
    ensures EligibleLeftOutDominated(top, Annotate(annotations, t), threshold, mechanismFilter)
  {
    var merged := Annotate(annotations, t);
    ghost var annotated := merged;
    if MechanismFilterActive(mechanismFilter) {
      merged := Filter(merged, AllowedBy(mechanismFilter.value));
    }
    merged := Filter(merged, PrevalentAt(threshold));
    FilterStepsSelectEligible(annotated, threshold, mechanismFilter);
    top := TopN(merged, topN, MeanKey);
    Top30Facts(annotations, t, merged, top, threshold, mechanismFilter);
  }

  /** What `TopN` promises about the eligible rows, restated over all the
      annotated rows. */
  lemma Top30Facts(annotations: seq<Annotation>, t: Table<real>, merged: seq<Top30Row>, top: seq<Top30Row>,
                   threshold: real, mechanismFilter: Option<seq<string>>)
    requires WellFormed(t)
    requires merged == EligibleRows(Annotate(annotations, t), threshold, mechanismFilter)
    requires multiset(top) <= multiset(merged)
    requires forall x, y :: x in multiset(merged) - multiset(top) && y in top ==> MeanKey(y) >= MeanKey(x)
    ensures SelectedEligible(top, annotations, t, threshold, mechanismFilter)
    ensures multiset(top) <= multiset(Annotate(annotations, t))
    ensures EligibleLeftOutDominated(top, Annotate(annotations, t), threshold, mechanismFilter)
  {
    var annotated := Annotate(annotations, t);
    Top30Members(annotated, merged, top, threshold, mechanismFilter);
    Top30Means(annotations, t, top);
    Top30Dominance(annotated, merged, top, threshold, mechanismFilter);
  }

  /** The selected rows are annotated rows that pass both filters. */
  lemma Top30Members(annotated: seq<Top30Row>, merged: seq<Top30Row>, top: seq<Top30Row>, threshold: real,
                     mechanismFilter: Option<seq<string>>)
    requires merged == EligibleRows(annotated, threshold, mechanismFilter)
    requires multiset(top) <= multiset(merged)
    ensures forall row :: row in top ==> row in annotated && Eligible(row, threshold, mechanismFilter)
    ensures multiset(top) <= multiset(annotated)
  {
    FilterCounts(annotated, EligibleUnder(threshold, mechanismFilter));
    forall row | row in top
      ensures row in annotated && Eligible(row, threshold, mechanismFilter)
    {
      assert row in multiset(merged);
    }
  }

  /** Annotated rows with a prevalence name KOs of the table and have means. */
  lemma Top30Means(annotations: seq<Annotation>, t: Table<real>, top: seq<Top30Row>)
    requires WellFormed(t)
    requires forall row :: row in top ==> row in Annotate(annotations, t) && row.prevalence.Some?
    ensures forall row :: row in top ==>
      row.annotation in annotations && row.annotation.ko in t.kos && row.meanAbundance == Some(MeanKey(row))
  {
    forall row | row in top
      ensures row.annotation in annotations && row.annotation.ko in t.kos
      ensures row.meanAbundance == Some(MeanKey(row))
    {
      EligibleRowsHaveMeans(annotations, t, row);
    }
  }

  /** Every eligible row that was not selected has a mean at most that of
      each selected row. */
  lemma Top30Dominance(annotated: seq<Top30Row>, merged: seq<Top30Row>, top: seq<Top30Row>, threshold: real,
                       mechanismFilter: Option<seq<string>>)
    requires merged == EligibleRows(annotated, threshold, mechanismFilter)
    requires forall x, y :: x in multiset(merged) - multiset(top) && y in top ==> MeanKey(y) >= MeanKey(x)
    ensures EligibleLeftOutDominated(top, annotated, threshold, mechanismFilter)
  {
    forall x, y | x in multiset(annotated) - multiset(top) && y in top && Eligible(x, threshold, mechanismFilter)
      ensures MeanKey(y) >= MeanKey(x)
    {
      FilterCounts(annotated, EligibleUnder(threshold, mechanismFilter));
      assert multiset(merged)[x] == multiset(annotated)[x];
      assert x in multiset(merged) - multiset(top);
    }
  }
}
