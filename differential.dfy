/** Differential abundance of every KO between two groups of samples named
    in the metadata: a two-sample test per KO, the group means, and
    Benjamini-Hochberg q-values over all KOs. The statistical tests and the
    q-value adjustment are parameters of the model; what is modelled is how
    samples are grouped, which values reach the test, and how the results are
    assembled and ordered. */
module Differential {
  import opened Wrappers
  import opened Tables
  import opened Ranking

  /** A test statistic and its p-value; either may be NaN (None). */
  datatype TestOutcome = TestOutcome(stat: Option<real>, pValue: Option<real>)

  /** One KO's result: the statistic, p-value, the means of the two groups
      (NaN for an empty group) and the adjusted q-value. */
  datatype DiffRow = DiffRow(ko: string, stat: Option<real>, pValue: Option<real>,
                             meanEarly: Option<real>, meanLate: Option<real>, qValue: Option<real>)

  /** The results in KO order, and the same results ordered by q-value. */
  datatype DiffResult = DiffResult(table: seq<DiffRow>, summary: seq<DiffRow>)

  /** The lookups that raise: a metadata column that does not exist, or group
      samples that are not columns of the KO table. */
  datatype DiffError = MissingMetadataColumn(column: string) | MissingSamples(labels: seq<string>)

  /** The metadata column `sc` of the rows whose column `gc` holds `group`, in
      metadata order. */
  function GroupIds(rows: seq<seq<string>>, gc: nat, sc: nat, group: string): seq<string>
    requires forall i :: 0 <= i < |rows| ==> gc < |rows[i]| && sc < |rows[i]|
  {
    if rows == [] then []
    else
      var last := rows[|rows| - 1];
      GroupIds(rows[..|rows| - 1], gc, sc, group) + if last[gc] == group then [last[sc]] else []
  }

  /** Some metadata row has group `group` and sample id `id`. */
  ghost predicate LabelledAs(rows: seq<seq<string>>, gc: nat, sc: nat, group: string, id: string)
    requires forall i :: 0 <= i < |rows| ==> gc < |rows[i]| && sc < |rows[i]|
  {
    exists i :: 0 <= i < |rows| && rows[i][gc] == group && rows[i][sc] == id
  }

  /** A sample id belongs to a group exactly when some metadata row gives it
      that group. */
  lemma {:induction false} GroupIdsMembers(rows: seq<seq<string>>, gc: nat, sc: nat, group: string, id: string)
    requires forall i :: 0 <= i < |rows| ==> gc < |rows[i]| && sc < |rows[i]|
    ensures id in GroupIds(rows, gc, sc, group) <==> LabelledAs(rows, gc, sc, group, id)
  {
    if rows != [] {
      var n := |rows| - 1;
      var front := rows[..n];
      GroupIdsMembers(front, gc, sc, group, id);
      if LabelledAs(front, gc, sc, group, id) {
        var i :| 0 <= i < |front| && front[i][gc] == group && front[i][sc] == id;
        assert rows[i] == front[i];
      }
      if LabelledAs(rows, gc, sc, group, id) {
        var i :| 0 <= i < |rows| && rows[i][gc] == group && rows[i][sc] == id;
        if i < n {
          assert front[i] == rows[i];
        }
      }
    }
  }

  /** Each metadata row falls in at most one of two different groups, so the
      two groups together list at most one id per metadata row. */
  lemma {:induction false} GroupsShareNoRow(rows: seq<seq<string>>, gc: nat, sc: nat, a: string, b: string)
    requires forall i :: 0 <= i < |rows| ==> gc < |rows[i]| && sc < |rows[i]|
    requires a != b
    ensures |GroupIds(rows, gc, sc, a)| + |GroupIds(rows, gc, sc, b)| <= |rows|
  {
    if rows != [] {
      GroupsShareNoRow(rows[..|rows| - 1], gc, sc, a, b);
    }
  }

  /** `metadata.loc[metadata[group_col] == group, "sample_id"].tolist()`:
      the group column is looked up first, then "sample_id". */
  function GroupSamples(metadata: Metadata, groupCol: string, group: string): (r: Result<seq<string>, DiffError>)
    requires MetadataWellFormed(metadata)
    ensures groupCol !in metadata.columns ==> r == Failure(MissingMetadataColumn(groupCol))
    ensures groupCol in metadata.columns && "sample_id" !in metadata.columns ==>
              r == Failure(MissingMetadataColumn("sample_id"))
    ensures r.Success? <==> groupCol in metadata.columns && "sample_id" in metadata.columns
    ensures r.Success? ==>
              r.value == GroupIds(metadata.rows, IndexOf(metadata.columns, groupCol).value,
                                  IndexOf(metadata.columns, "sample_id").value, group)
  {
    match IndexOf(metadata.columns, groupCol)
    case None => Failure(MissingMetadataColumn(groupCol))
    case Some(gc) =>
      match IndexOf(metadata.columns, "sample_id")
      case None => Failure(MissingMetadataColumn("sample_id"))
      case Some(sc) => Success(GroupIds(metadata.rows, gc, sc, group))
  }

  /** Every group names a sample column. */
  predicate AllSamples(samples: seq<string>, ids: seq<string>) {
    forall k :: 0 <= k < |ids| ==> ids[k] in samples
  }

  /** The labels that are not sample columns, as reported by the failed
      lookup. */
  function UnknownLabels(samples: seq<string>, ids: seq<string>): (u: seq<string>)
    ensures AllSamples(samples, ids) <==> u == []
    ensures forall l :: l in u <==> l in ids && l !in samples
  {
    if ids == [] then []
    else
      var rest := UnknownLabels(samples, ids[1..]);
      assert forall k :: 1 <= k < |ids| ==> ids[k] == ids[1..][k - 1];
      (if ids[0] in samples then [] else [ids[0]]) + rest
  }

  /** `row[ids]`: the values of one KO in the samples `ids`, in that order. */
  function SelectSamples(t: Table<real>, i: nat, ids: seq<string>): (v: seq<real>)
    requires Rectangular(t) && i < |t.kos| && AllSamples(t.samples, ids)
    ensures |v| == |ids|
    ensures forall k :: 0 <= k < |v| ==> t.samples[IndexOf(t.samples, ids[k]).value] == ids[k]
                                         && v[k] == t.values[i][IndexOf(t.samples, ids[k]).value]
  {
    seq(|ids|, k requires 0 <= k < |ids| => t.values[i][IndexOf(t.samples, ids[k]).value])
  }

  /** The p-values of the results, in order. */
  function PValues(rows: seq<DiffRow>): (p: seq<Option<real>>)
    ensures |p| == |rows| && forall k :: 0 <= k < |p| ==> p[k] == rows[k].pValue
  {
    seq(|rows|, k requires 0 <= k < |rows| => rows[k].pValue)
  }

  predicate HasQ(row: DiffRow) {
    row.qValue.Some?
  }

  predicate LacksQ(row: DiffRow) {
    row.qValue.None?
  }

  /** Ascending q-values with the NaN ones last, as `sort_values("q_value")`. */
  predicate AscendingQ(rows: seq<DiffRow>) {
    && (forall i, j :: 0 <= i < j < |rows| && HasQ(rows[i]) && HasQ(rows[j]) ==>
          rows[i].qValue.value <= rows[j].qValue.value)
    && (forall i, j :: 0 <= i < j < |rows| && LacksQ(rows[i]) ==> LacksQ(rows[j]))
  }

  /** The sort key that orders rows with a q-value ascending; rows without one
      never reach it. */
  function NegQ(row: DiffRow): real {
    match row.qValue
    case Some(q) => -q
    case None => 0.0
  }

  /** `sort_values("q_value")`: the same rows, ascending by q-value, the rows
      with a NaN q-value last and in their original order. The order among
      equal q-values is not specified. */
  function SortByQ(rows: seq<DiffRow>): (r: seq<DiffRow>)
    ensures multiset(r) == multiset(rows)
    ensures AscendingQ(r)
    ensures |Filter(rows, LacksQ)| <= |r| && r[|r| - |Filter(rows, LacksQ)|..] == Filter(rows, LacksQ)
  {
    var withQ := Filter(rows, HasQ);
    var withoutQ := Filter(rows, LacksQ);
    var sorted := SortDesc(withQ, NegQ);
    SortByQFacts(rows, withQ, withoutQ, sorted);
    sorted + withoutQ
  }

  lemma SortByQFacts(rows: seq<DiffRow>, withQ: seq<DiffRow>, withoutQ: seq<DiffRow>, sorted: seq<DiffRow>)
    requires withQ == Filter(rows, HasQ) && withoutQ == Filter(rows, LacksQ)
    requires NonIncreasing(sorted, NegQ) && multiset(sorted) == multiset(withQ)
    ensures multiset(sorted + withoutQ) == multiset(rows)
    ensures AscendingQ(sorted + withoutQ)
  {
    SplitByQ(rows);
    AllSatisfy(sorted, withQ, rows, HasQ);
    AllSatisfy(withoutQ, withoutQ, rows, LacksQ);
    ConcatAscending(sorted, withoutQ);
  }

  /** Splitting by whether the q-value is NaN keeps every row exactly once. */
  lemma SplitByQ(rows: seq<DiffRow>)
    ensures multiset(rows) == multiset(Filter(rows, HasQ)) + multiset(Filter(rows, LacksQ))
  {
    FilterCounts(rows, HasQ);
    FilterCounts(rows, LacksQ);
    forall x ensures multiset(rows)[x] == multiset(Filter(rows, HasQ))[x] + multiset(Filter(rows, LacksQ))[x] {}
  }

  lemma AllSatisfy(s: seq<DiffRow>, kept: seq<DiffRow>, rows: seq<DiffRow>, keep: DiffRow -> bool)
    requires kept == Filter(rows, keep) && multiset(s) == multiset(kept)
    ensures forall k :: 0 <= k < |s| ==> keep(s[k])
  {
    FilterCounts(rows, keep);
    forall k | 0 <= k < |s| ensures keep(s[k]) {
      assert s[k] in multiset(kept);
    }
  }

  lemma ConcatAscending(sorted: seq<DiffRow>, withoutQ: seq<DiffRow>)
    requires NonIncreasing(sorted, NegQ)
    requires forall k :: 0 <= k < |sorted| ==> HasQ(sorted[k])
    requires forall k :: 0 <= k < |withoutQ| ==> LacksQ(withoutQ[k])
    ensures AscendingQ(sorted + withoutQ)
  {
    var r := sorted + withoutQ;
    forall i, j | 0 <= i < j < |r| && HasQ(r[i]) && HasQ(r[j])
      ensures r[i].qValue.value <= r[j].qValue.value
    {
      assert j < |sorted|;
      assert NegQ(r[i]) >= NegQ(r[j]);
    }
  }

  /** The test the name selects: Welch's t-test for "ttest", and the
      two-sided Mann-Whitney U test for any other name. */
  function ChooseTest(testName: string, ttest: (seq<real>, seq<real>) -> TestOutcome,
                      mannWhitney: (seq<real>, seq<real>) -> TestOutcome): (seq<real>, seq<real>) -> TestOutcome
  {
    if testName == "ttest" then ttest else mannWhitney
  }

  /** The result row of KO `i` before q-values: its label, the outcome of the
      test on its values in group A and in group B, and the two group means. */
  predicate RowMatches(t: Table<real>, i: nat, idsA: seq<string>, idsB: seq<string>,
                       test: (seq<real>, seq<real>) -> TestOutcome, row: DiffRow)
    requires Rectangular(t) && i < |t.kos| && AllSamples(t.samples, idsA) && AllSamples(t.samples, idsB)
  {
    var a := SelectSamples(t, i, idsA);
    var b := SelectSamples(t, i, idsB);
    && row.ko == t.kos[i]
    && TestOutcome(row.stat, row.pValue) == test(a, b)
    && row.meanEarly == Mean(a)
    && row.meanLate == Mean(b)
  }

  /** The raised error of a KO table lacking group samples: the labels of
      group A missing from it if there are any, else those of group B. */
  predicate MissingSamplesError(samples: seq<string>, idsA: seq<string>, idsB: seq<string>, e: DiffError) {
    && e.MissingSamples? && e.labels != []
    && (if AllSamples(samples, idsA) then e.labels == UnknownLabels(samples, idsB)
        else e.labels == UnknownLabels(samples, idsA))
  }

  /** A successful result: one row per KO in table order, each matching the
      test on the KO's values in the two groups, with q-values the adjustment
      of all p-values in that order; the summary holds the same rows ascending
      by q-value, the NaN q-values last in table order, with the order among
      equal q-values left open. */
  predicate ResultFor(t: Table<real>, idsA: seq<string>, idsB: seq<string>,
                      test: (seq<real>, seq<real>) -> TestOutcome,
                      fdrBh: seq<Option<real>> -> seq<Option<real>>, res: DiffResult)
    requires Rectangular(t)
    requires forall ps :: |fdrBh(ps)| == |ps|
  {
    && |res.table| == |t.kos|
    && (forall k :: 0 <= k < |t.kos| ==>
          && AllSamples(t.samples, idsA) && AllSamples(t.samples, idsB)
          && RowMatches(t, k, idsA, idsB, test, res.table[k])
          && res.table[k].qValue == fdrBh(PValues(res.table))[k])
    && multiset(res.summary) == multiset(res.table)
    && AscendingQ(res.summary)
    && |Filter(res.table, LacksQ)| <= |res.summary|
    && res.summary[|res.summary| - |Filter(res.table, LacksQ)|..] == Filter(res.table, LacksQ)
  }

  /** The rows with their q-values filled in, position by position. */
  function WithQValues(rows: seq<DiffRow>, q: seq<Option<real>>): (table: seq<DiffRow>)
    requires |q| == |rows|
    ensures |table| == |rows| && PValues(table) == PValues(rows)
    ensures forall k :: 0 <= k < |rows| ==> table[k] == rows[k].(qValue := q[k])
  {
    seq(|rows|, k requires 0 <= k < |rows| => rows[k].(qValue := q[k]))
  }

  /** Groups the samples by the metadata, tests every KO of the table in
      table order, adjusts the p-values of all KOs together, and returns the
      results in KO order and sorted by q-value. A missing metadata column
      raises; so do group samples absent from the KO table, but only when the
      table has a KO to look them up for. */
  method DifferentialAbundance(t: Table<real>, metadata: Metadata, groupCol: string,
                               groupA: string, groupB: string, testName: string,
                               ttest: (seq<real>, seq<real>) -> TestOutcome,
                               mannWhitney: (seq<real>, seq<real>) -> TestOutcome,
                               fdrBh: seq<Option<real>> -> seq<Option<real>>)
    returns (r: Result<DiffResult, DiffError>)
    requires Rectangular(t) && MetadataWellFormed(metadata)
    requires forall ps :: |fdrBh(ps)| == |ps|
    ensures GroupSamples(metadata, groupCol, groupA).Failure? ==>
              r == Failure(GroupSamples(metadata, groupCol, groupA).error)
    ensures GroupSamples(metadata, groupCol, groupA).Success? ==>
              var idsA := GroupSamples(metadata, groupCol, groupA).value;
              var idsB := GroupSamples(metadata, groupCol, groupB).value;
              && (r.Success? <==> |t.kos| == 0 || (AllSamples(t.samples, idsA) && AllSamples(t.samples, idsB)))
              && (r.Failure? ==> |t.kos| > 0 && MissingSamplesError(t.samples, idsA, idsB, r.error))
              && (r.Success? ==> ResultFor(t, idsA, idsB, ChooseTest(testName, ttest, mannWhitney), fdrBh, r.value))
  {
    var a := GroupSamples(metadata, groupCol, groupA);
    if a.Failure? {
      return Failure(a.error);
    }
    var b := GroupSamples(metadata, groupCol, groupB);
    var idsA, idsB := a.value, b.value;
    var test := ChooseTest(testName, ttest, mannWhitney);
    var rows: seq<DiffRow> := [];
    if |t.kos| > 0 {
      // The label lookups `row[group_samples]` fail on the first KO already.
      if !AllSamples(t.samples, idsA) {
        return Failure(MissingSamples(UnknownLabels(t.samples, idsA)));
      }
      if !AllSamples(t.samples, idsB) {
        return Failure(MissingSamples(UnknownLabels(t.samples, idsB)));
      }
      var i := 0;
      while i < |t.kos|
        invariant 0 <= i <= |t.kos|
        invariant |rows| == i
        invariant forall k :: 0 <= k < i ==> RowMatches(t, k, idsA, idsB, test, rows[k])
      {
        var valsA := SelectSamples(t, i, idsA);
        var valsB := SelectSamples(t, i, idsB);
        var outcome := test(valsA, valsB);
        rows := rows + [DiffRow(t.kos[i], outcome.stat, outcome.pValue, Mean(valsA), Mean(valsB), None)];
        i := i + 1;
      }
    }
    var table := WithQValues(rows, fdrBh(PValues(rows)));
    r := Success(DiffResult(table, SortByQ(table)));
    TestedRowsGiveResult(t, idsA, idsB, test, fdrBh, rows);
  }

  /** Rows matching their KOs' tests, once given q-values and sorted, form a
      successful result. */
  lemma TestedRowsGiveResult(t: Table<real>, idsA: seq<string>, idsB: seq<string>,
                             test: (seq<real>, seq<real>) -> TestOutcome,
                             fdrBh: seq<Option<real>> -> seq<Option<real>>, rows: seq<DiffRow>)
    requires Rectangular(t) && forall ps :: |fdrBh(ps)| == |ps|
    requires |rows| == |t.kos|
    requires |t.kos| > 0 ==> AllSamples(t.samples, idsA) && AllSamples(t.samples, idsB)
    requires forall k :: 0 <= k < |t.kos| ==> RowMatches(t, k, idsA, idsB, test, rows[k])
    ensures var table := WithQValues(rows, fdrBh(PValues(rows)));
      ResultFor(t, idsA, idsB, test, fdrBh, DiffResult(table, SortByQ(table)))
  {
    var table := WithQValues(rows, fdrBh(PValues(rows)));
    forall k | 0 <= k < |t.kos|
      ensures RowMatches(t, k, idsA, idsB, test, table[k])
      ensures table[k].qValue == fdrBh(PValues(table))[k]
    {
      assert RowMatches(t, k, idsA, idsB, test, rows[k]);
    }
  }
}
