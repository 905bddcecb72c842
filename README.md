# WWTP ABRG resistome analysis core, modelled in Dafny

This project models the table logic of the wastewater antibiotic-resistance-gene (ABRG) pipeline's analysis core.

**Abundance tables.** A KO table holds the abundance of each KEGG orthologue (KO) in each sample.
- Column normalisation into relative abundance.
- Per-sample richness and per-KO prevalence.
- Selection of the most abundant KOs over time.
- The annotated, filtered top-N KO list.
- Collapsing a taxon-stratified KO table.

**Differential abundance.** This is the bookkeeping around the test:
- grouping samples through the metadata;
- one result per KO;
- group means;
- q-values across all KOs;
- the summary ordered by q-value.

**Input validation.**
- Sample IDs must match between the KO table and the metadata.
- No negative values.
- No missing cells, and every required column present.

**Co-occurrence network.** Every pair of KOs is correlated, and a pair becomes an edge when it passes both thresholds.

**Modelling conventions.**
- Abundances are `real`.
- A pandas NaN (including 0/0) is `None` of an `Option`, and so is the ±inf of a non-zero value divided by 0.
- A label lookup that raises is the error branch of a `Result` or `Outcome`.
- A table is a `Table(kos, samples, values)` with one row of values per KO.
- The statistical routines are parameters of the model, never implemented:
  - Welch's t-test;
  - the Mann-Whitney U test;
  - Spearman's rank correlation;
  - the Benjamini-Hochberg adjustment.

**Modules.**
- `wrappers.dfy`: Option, Outcome and Result.
- `order.dfy`: code-point string order and sorted distinct sequences (Python `sorted(set(...))`, pandas `groupby` key order).
- `tables.dfy`: the table types, sums, counts, means, label lookup and boolean-mask selection.
- `ranking.dfy`: sort descending by a key and pandas `head(n)`, up to ties.
- `grouping.dfy`: group-by-sum.
- `abundance.dfy`, `selection.dfy`, `stratified.dfy`, `differential.dfy`, `validation.dfy` and `network.dfy`: one per part of the core.

pandas' default sort is not stable, so every ranking is specified only up to the order of rows with equal keys. No tie-break is invented.

The three imperative routines are Dafny methods with loops or successive reassignments, and each is proved against specification functions:
- `generate_top30`;
- `differential_abundance`;
- `spearman_network`.

Everything else is a function with lemmas.

## Model

| member | source | states |
|---|---|---|
| Abundance.Share | wwtp_abrg/analysis.py:26 | A cell's share is undefined exactly when its column total is 0; otherwise share × total = the cell. |
| Abundance.RelativeAbundance | wwtp_abrg/analysis.py:24-26 | Keeps the labels and shape. A cell is undefined (NaN for 0/0, ±inf for x/0, both `None`) exactly when its sample's column total is 0. Otherwise cell × column total = the original abundance. |
| Abundance.RelativeAbundanceIsComposition | wwtp_abrg/analysis.py:24-26 | For a non-negative table and a sample with positive total: every share is defined and lies in [0, 1], and the shares of the sample sum to 1. |
| Abundance.Richness | wwtp_abrg/analysis.py:29-30 | One count per sample, whose meaning `Abundance.RichnessCountsPresentKos` states. |
| Abundance.RichnessCountsPresentKos | wwtp_abrg/analysis.py:29-30 | A sample's richness is the number of KOs with a strictly positive abundance in it, so it lies between 0 and the number of KOs. |
| Abundance.Prevalence | wwtp_abrg/analysis.py:103-104 | One value per KO; it is NaN exactly when the table has no samples (0/0). |
| Abundance.PrevalenceIsFractionOfSamples | wwtp_abrg/analysis.py:103-104 | Prevalence × number of samples = number of samples where the KO is strictly positive; prevalence lies in [0, 1]. |
| Tables.CountPositiveIsCardinality | wwtp_abrg/analysis.py:30 | `(x > 0).sum()` equals the number of positions holding a positive entry and is at most the length. |
| Tables.CountPositiveIgnoresNonPositive | wwtp_abrg/analysis.py:104 | Zero (or negative) entries never count: two rows with positives in the same places have the same count. |
| Tables.Mean | wwtp_abrg/analysis.py:34 | `mean` is defined exactly for a non-empty sequence, and mean × count = sum. |
| Tables.MeanOrderIsSumOrder | wwtp_abrg/analysis.py:34 | Over equally many samples, comparing means is comparing totals (so ranking needs no division). |
| Tables.IndexOf | wwtp_abrg/analysis.py:36 | Label lookup: no position exactly when the label is absent; otherwise a position holding it. |
| Tables.IndexOfIsFirst | wwtp_abrg/analysis.py:36 | The position found is the first one holding the label. |
| Tables.FilterCounts | wwtp_abrg/analysis.py:120-121 | Boolean-mask selection keeps each row satisfying the mask as often as it occurs and drops every other row. |
| Tables.FilterFilter | wwtp_abrg/analysis.py:119-121 | Filtering by one mask and then another keeps exactly the rows passing both, in their original order. |
| Tables.FilterAppend | wwtp_abrg/validation.py:33 | Selection keeps the order of what it keeps (distributes over concatenation). |
| Ranking.SortDesc | wwtp_abrg/analysis.py:34 | `sort_values(ascending=False)`: a permutation of the input, non-increasing in the key. |
| Ranking.HeadLength | wwtp_abrg/analysis.py:35 | `head(n)` never keeps more rows than there are. For n ≥ 0 it keeps at most n, and fewer only when the input runs out. For n < 0 it drops exactly the last abs(n) rows, or keeps nothing when there are no more than abs(n). |
| Ranking.TopN | wwtp_abrg/analysis.py:34-35 | The `head` length, non-increasing keys, a sub-multiset of the input, and every left-out row's key is at most every kept row's key. |
| Selection.TopKosOverTime | wwtp_abrg/analysis.py:33-36 | Keeps the samples. At most `top_n` KOs (the `head` length). Every returned row is an unchanged input row, the KOs are distinct, and they come in non-increasing mean order. Every KO left out has a mean at most that of each returned KO. |
| Selection.MeanOf | wwtp_abrg/analysis.py:114-117 | The mean aligned to an annotation's KO is defined exactly when the KO is in the table (and there are samples), and is then that KO's mean. |
| Selection.PrevalenceOf | wwtp_abrg/analysis.py:115-118 | The prevalence aligned to an annotation's KO is defined exactly when the KO is in the table (and there are samples), and is then that KO's prevalence. |
| Selection.AnnotateAligns | wwtp_abrg/analysis.py:116-118 | Each annotation keeps its row and position. It carries the mean and prevalence of the first table row labelled by its KO, and NaN for both when no table row has that KO. |
| Tables.IndexOfFirstOccurrence | wwtp_abrg/analysis.py:116-118 | The lookup of a label finds its first occurrence. |
| Selection.EligibleRowsHaveMeans | wwtp_abrg/analysis.py:115-121 | A row with a prevalence names a KO of the table and has a mean, so the mean sort never meets NaN. |
| Selection.GenerateTop30 | wwtp_abrg/analysis.py:107-122 | The `head(top_n)` length of the rows passing both filters. Every output row is an annotation row that passes the mechanism filter (only when a non-empty filter is given) and the prevalence threshold. Its KO is in the table and its mean is defined. The output is non-increasing in mean and a sub-multiset of the annotated rows, and every eligible row left out has a mean at most each kept row's. |
| Selection.FilterStepsSelectEligible | wwtp_abrg/analysis.py:119-121 | The mechanism mask (only when a non-empty filter is given) followed by the prevalence mask keeps exactly the eligible rows, in their original order. |
| Selection.Top30Facts | wwtp_abrg/analysis.py:114-122 | Rows taken from the eligible rows with the dominance property of `head` are annotation rows that pass both filters, have a defined mean equal to their KO's mean, and dominate every eligible row left out. |
| Grouping.GroupTotalsPreserveSum | wwtp_abrg/analysis.py:135 | Summing by distinct keys that cover every entry loses and double-counts nothing: the group totals add up to the grand total. |
| Stratified.StratifiedToKoTable | wwtp_abrg/analysis.py:132-136 | Keeps the samples. The KOs are distinct and sorted, and they are exactly the KOs of the stratified rows. Each cell is the total, in that sample, of that KO's taxon rows. |
| Stratified.StratifiedToKoTablePreservesSampleTotals | wwtp_abrg/analysis.py:132-136 | Every sample's total in the collapsed table equals its total over the stratified rows. |
| Stratified.SummarizeStratified | wwtp_abrg/analysis.py:125-129 | Empty when there are no sample columns. Otherwise one row per distinct (KO, taxon) pair, in sorted order, holding that pair's total over all samples. |
| Stratified.SummaryPreservesGrandTotal | wwtp_abrg/analysis.py:125-129 | With at least one sample, the per-pair totals add up to the table's grand total. |
| Order.SortedUnique | wwtp_abrg/validation.py:14-15 | `sorted(set(xs))`: strictly increasing, with exactly the elements of `xs`. |
| Order.StrictlySortedUnique | wwtp_abrg/validation.py:14-15 | Two strictly sorted sequences with the same elements are equal, so `sorted(set(...))` is determined by the set. |
| Order.StrLtIsStrictTotalOrder | wwtp_abrg/validation.py:14-15 | Code-point lexicographic string comparison is a strict total order. |
| Order.PairLtIsStrictTotalOrder | wwtp_abrg/analysis.py:128 | The order on (KO, taxon) keys is a strict total order. |
| Differential.GroupSamples | wwtp_abrg/analysis.py:47-48 | A missing group column, then a missing "sample_id" column, raises. Otherwise the group's sample ids come in metadata order. |
| Differential.GroupIdsMembers | wwtp_abrg/analysis.py:47-48 | A sample id is in a group exactly when some metadata row gives it that group label. |
| Differential.GroupsShareNoRow | wwtp_abrg/analysis.py:47-48 | For two different labels, each metadata row lands in at most one group. |
| Differential.UnknownLabels | wwtp_abrg/analysis.py:50-51 | The lookup `row[group_samples]` fails exactly when some label is not a sample column; the report holds exactly the requested labels that are not sample columns. |
| Differential.SelectSamples | wwtp_abrg/analysis.py:50-51 | `row[group_samples]`: one value per requested sample, in the requested order, each read from the column carrying that label. |
| Differential.SortByQ | wwtp_abrg/analysis.py:63 | `sort_values("q_value")`: a permutation of the table. Ascending by q-value, with the NaN q-values last and in their original order. |
| Differential.TestedRowsGiveResult | wwtp_abrg/analysis.py:50-63 | Rows that match every KO's test, once given the adjusted q-values and sorted by q-value, make a result as `differential_abundance` promises it. |
| Differential.DifferentialAbundance | wwtp_abrg/analysis.py:39-64 | Metadata errors propagate. Unknown group samples raise exactly when the table has a KO. Otherwise there is one row per KO, in table order. Each row holds the chosen test's outcome on the KO's values in group A and in group B, and the two group means. The q-values are the adjustment of all p-values in KO order. The summary holds the same rows ascending by q-value, with the NaN q-values last in table order; the order among equal q-values is left open. |
| Validation.SortedDifference | wwtp_abrg/validation.py:14-15 | Strictly sorted, with exactly the labels of the first list that the second lacks. |
| Validation.ValidateSamples | wwtp_abrg/validation.py:10-21 | A missing "sample_id" column raises. Otherwise the check passes exactly when the table's sample set equals the metadata's. On failure it reports both one-way differences, each sorted. |
| Validation.ValidateSamplesSetwise | wwtp_abrg/validation.py:14-16 | The outcome and the report depend only on the set of table samples: reordering or repeating samples changes nothing. |
| Validation.AnyCell | wwtp_abrg/validation.py:25 | `df.map(p).any().any()` holds exactly when some cell satisfies `p`. |
| Validation.ValidateNonNegative | wwtp_abrg/validation.py:24-26 | Passes exactly when no cell is a negative number (NaN cells and zeros pass); otherwise it raises the negative-values error. |
| Validation.MissingColumnsExact | wwtp_abrg/validation.py:33 | Each absent column is reported as often as it is required; present columns never are. |
| Validation.MissingColumnsInOrder | wwtp_abrg/validation.py:33 | Absent columns are reported in the order in which they were required. |
| Validation.ValidateNoMissing | wwtp_abrg/validation.py:29-35 | Any NaN cell raises the missing-values error first. Otherwise the check passes exactly when every required column is present (None and an empty list skip the check). Failing that, it raises with the list of absent required columns, which is non-empty. |
| Network.SpearmanNetwork | wwtp_abrg/network.py:9-17 | The nested loops return exactly `Network`: round by round, the edges of the passing pairs (i, j), i < j. |
| Network.RowEdgesSound | wwtp_abrg/network.py:13-16 | Round i contributes at most one edge per later KO, and each is the edge of a pair (i, k) whose coefficient and p-value are defined and pass both inclusive thresholds. |
| Network.RowEdgesComplete | wwtp_abrg/network.py:13-16 | Every passing pair (i, k) of round i yields its edge, with the pair's labels, rho and p-value. |
| Network.RoundEdgesSound | wwtp_abrg/network.py:12-16 | After m rounds, every edge comes from a passing pair (i, j) with i < m and i < j, and there are at most m(2n − m − 1)/2 edges, the number of pairs visited. |
| Network.RoundArithmetic | wwtp_abrg/network.py:12-13 | Round m adds n − m pairs to the m − 1 rounds before it, giving m(2n − m − 1)/2 pairs in all. |
| Network.RoundEdgesComplete | wwtp_abrg/network.py:12-16 | Every passing pair visited in the first m rounds yields its edge. |
| Network.SpearmanEdgeIff | wwtp_abrg/network.py:12-16 | For KO positions i < j there is an edge from KO i to KO j exactly when their correlation passes both thresholds. |
| Network.SpearmanEdgesShape | wwtp_abrg/network.py:12-16 | Every edge joins two different KOs of the table, and there are at most n(n − 1)/2 edges. |
| Network.AppendEdgesOfPairs | wwtp_abrg/network.py:12-16 | Appending the edges of later passing pairs to those of earlier ones keeps edges and pairs in one-to-one, lexicographic correspondence. |
| Network.PassingPairSnoc | wwtp_abrg/network.py:15-16 | Appending the edge of a passing pair (i, j) after pairs (i, k), k < j, keeps the correspondence and the round. |
| Network.RowEdgesOrdered | wwtp_abrg/network.py:13-16 | The edges of round i are, one for one, the edges of its passing pairs (i, k), in increasing k. |
| Network.RoundEdgesOrdered | wwtp_abrg/network.py:12-16 | The edges of the first m rounds are, one for one, the edges of their passing pairs, in strictly increasing lexicographic order of positions. |
| Network.SpearmanEdgesOrdered | wwtp_abrg/network.py:12-17 | The network lists the edges of its passing pairs one for one, in strictly increasing lexicographic order of positions; no two edges join the same (source, target) KOs; and if no pair passes, the result is empty rather than an error. |

## Left out

- The statistics are parameters of the model, not implementations:
  - Welch's t-test and the Mann-Whitney U test (`scipy.stats`);
  - Spearman's correlation;
  - the Benjamini-Hochberg adjustment (`statsmodels`).
  
  The model assumes only that the adjustment returns one q-value per p-value.
- Beta diversity, PCoA, PERMANOVA, hierarchical clustering and the SVD ordination are left out (`wwtp_abrg/analysis.py:67-100`). They are library numerics whose properties this code never computes itself.
- Floating point is left out. Abundances are exact reals. NaN appears only where the code produces or tests it:
  - a zero column total (where ±inf for a non-zero cell is also `None`);
  - an empty group mean;
  - prevalence with no samples;
  - a KO absent from the table;
  - a NaN correlation or test result;
  - NaN cells in validation.
- KO labels are assumed distinct (`Tables.WellFormed`). With duplicate index labels, pandas `loc` and aligned column assignment return or raise differently.
- Selection.TopKosOverTime: the bound of at most `top_n` rows rests on distinct KO labels. With a duplicated label among the top means, `ko_table.loc[top_kos]` returns every row carrying that label, so the program can return more than `top_n` rows.
- Differential.DifferentialAbundance: for a table with no KOs the model returns an empty success. The q-value adjustment is a parameter here, a total function. The program hands the empty p-value column to statsmodels' `multipletests`, which is not part of this model and is understood to divide by the number of tests, so the program would raise there.
- Differential.DifferentialAbundance: the default argument values (`period`, `early`, `late`, `ttest`) are not modelled; every argument is passed explicitly.
- Selection.GenerateTop30: the annotation table always has a KO and a mechanism column (`Selection.Annotation`). The model does not represent the KeyError that `set_index("KO")` raises without a KO column, nor the one that `merged["mechanism"]` raises when a non-empty filter is given and there is no mechanism column.
- Stratified.SummarizeStratified and Stratified.StratifiedToKoTable: the stratified table always has KO and Taxon columns (`Stratified.StratifiedRow`). The model does not represent the KeyError that `melt(id_vars=["KO", "Taxon"])` and `groupby("KO")` raise when one is missing.
- Differential.SelectSamples: with duplicate sample column labels, pandas returns every column carrying the label; the model reads only the first.
- Metadata cells are text without NaN, and a column name is looked up at its first occurrence.
- Validation.ValidateSamples: NaN sample ids in the metadata are not modelled.
- Exception classes and message texts are abstracted into error constructors carrying the reported data.
- Selection.GenerateTop30: a `mechanism_filter` passed as a bare string (which pandas `isin` would reject) is not modelled; the filter is `None` or a list.
- Selection.MeanKey: its default for a NaN mean is never consulted (see `Selection.EligibleRowsHaveMeans`).
- Orderings are stated only up to ties: `sort_values` in `top_kos_over_time`, `generate_top30` and the q-value summary is not stable.
- Stratified.StratifiedToKoTable: pandas' `groupby` drops NaN keys; KO and taxon labels are never NaN here.
- Stratified.SummarizeStratified: a NaN Taxon (or KO) label is not modelled. pandas' `groupby(["KO", "Taxon"])` would drop such rows, so `Stratified.SummaryPreservesGrandTotal` would not hold for them.
- Everything in `wwtp_abrg/pipeline.py`, `wwtp_abrg/figures.py`, `wwtp_abrg/io.py`, `wwtp_abrg/config.py` and `wwtp_abrg/run.py` is left out: file I/O, plotting, YAML and CLI plumbing, and the run manifest.
- `analysis.build_table1` and `analysis.top_kos_time_series_tidy`, called from the pipeline, are not part of this model; they are not defined in the analysis module.

Behaviour of the code that the model keeps as written:
- Rankings break no ties. The code sorts by mean alone, with pandas' unstable default sort, so the model leaves the order of equal means open.
- An empty group reaches the test, and its mean is NaN.
- Any test name other than "ttest" selects the Mann-Whitney test.
- A zero column total makes its relative abundances NaN (0/0) or ±inf (x/0), both `None` here.
