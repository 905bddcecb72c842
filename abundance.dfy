/** Column normalisation, per-sample richness and per-KO prevalence
    (`compute_relative_abundance`, `compute_richness`, `compute_prevalence`). */
module Abundance {
  import opened Wrappers
  import opened Tables

  /** One cell's share of its sample total; with a zero total there is no share. */
  function Share(x: real, total: real): (s: Option<real>)
    ensures s.None? <==> total == 0.0
    ensures s.Some? ==> s.value * total == x
  {
    if total == 0.0 then None else Some(x / total)
  }

  /** Each sample's column divided by its total. A zero total makes every cell
      of that column NaN (0/0) or infinite, both modelled as None. */
  function RelativeAbundance(t: Table<real>): (r: Table<Option<real>>)
    requires Rectangular(t)
    ensures r.kos == t.kos && r.samples == t.samples && Rectangular(r)
    ensures forall i, j :: 0 <= i < |t.kos| && 0 <= j < |t.samples| ==>
      (r.values[i][j].None? <==> Sum(Column(t, j)) == 0.0)
    ensures forall i, j :: 0 <= i < |t.kos| && 0 <= j < |t.samples| && r.values[i][j].Some? ==>
      r.values[i][j].value * Sum(Column(t, j)) == t.values[i][j]
  {
    var totals := seq(|t.samples|, j requires 0 <= j < |t.samples| => Sum(Column(t, j)));
    var values := seq(|t.values|, i requires 0 <= i < |t.values| =>
      seq(|t.samples|, j requires 0 <= j < |t.samples| =>
        Share(t.values[i][j], totals[j])));
    Table(t.kos, t.samples, values)
  }

  /** For a non-negative table, a sample with a positive total becomes a
      composition: every share is in [0, 1] and the shares sum to 1. */
  lemma RelativeAbundanceIsComposition(t: Table<real>, j: nat)
    requires Rectangular(t) && NonNegative(t)
    requires j < |t.samples| && Sum(Column(t, j)) > 0.0
    ensures forall i :: 0 <= i < |t.kos| ==> Column(RelativeAbundance(t), j)[i].Some?
    ensures forall i :: 0 <= i < |t.kos| ==> 0.0 <= Column(RelativeAbundance(t), j)[i].value <= 1.0
    ensures Sum(Values(Column(RelativeAbundance(t), j))) == 1.0
  {
    var r := RelativeAbundance(t);
    var c, total := Column(t, j), Sum(Column(t, j));
    var shares := Values(Column(r, j));
    forall i | 0 <= i < |t.kos| ensures 0.0 <= shares[i] <= 1.0 {
      ElementAtMostSum(c, i);
      FractionBounds(c[i], total);
    }
    SumScaled(c, shares, total);
  }

  /** Richness: for each sample, how many KOs have a positive abundance. */
  function Richness(t: Table<real>): (r: seq<nat>)
    requires Rectangular(t)
    ensures |r| == |t.samples|
  {
    seq(|t.samples|, j requires 0 <= j < |t.samples| => CountPositive(Column(t, j)))
  }

  lemma RichnessCountsPresentKos(t: Table<real>, j: nat)
    requires Rectangular(t) && j < |t.samples|
    ensures Richness(t)[j] == |set i: nat | i < |t.kos| && t.values[i][j] > 0.0|
    ensures 0 <= Richness(t)[j] <= |t.kos|
  {
    var c := Column(t, j);
    CountPositiveIsCardinality(c);
    assert PositiveIndices(c) == set i: nat | i < |t.kos| && t.values[i][j] > 0.0;
  }

  /** Prevalence: for each KO, the fraction of samples where it is positive;
      with no samples at all it is 0/0, NaN. */
  function Prevalence(t: Table<real>): (r: seq<Option<real>>)
    requires Rectangular(t)
    ensures |r| == |t.kos|
    ensures forall i :: 0 <= i < |r| ==> (r[i].Some? <==> |t.samples| > 0)
  {
    seq(|t.values|, i requires 0 <= i < |t.values| =>
      if |t.samples| == 0 then None
      else Some(CountPositive(t.values[i]) as real / |t.samples| as real))
  }

  lemma PrevalenceIsFractionOfSamples(t: Table<real>, i: nat)
    requires Rectangular(t) && i < |t.kos| && |t.samples| > 0
    ensures Prevalence(t)[i].Some?
    ensures Prevalence(t)[i].value * |t.samples| as real
         == |set j: nat | j < |t.samples| && t.values[i][j] > 0.0| as real
    ensures 0.0 <= Prevalence(t)[i].value <= 1.0
  {
    var row := t.values[i];
    CountPositiveIsCardinality(row);
    assert PositiveIndices(row) == set j: nat | j < |t.samples| && t.values[i][j] > 0.0;
    FractionBounds(CountPositive(row) as real, |t.samples| as real);
  }
}
