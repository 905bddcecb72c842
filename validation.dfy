/** Input checks run before any analysis: the KO table and the metadata must
    name the same samples, abundances must not be negative, and tables must
    have no missing cells and every required column. Each check passes or
    raises one error. */
module Validation {
  import opened Wrappers
  import opened Tables
  import opened Order

  /** The errors the checks raise. */
  datatype ValidationError =
    | MissingColumn(column: string)
    | SampleMismatch(missingInMetadata: seq<string>, missingInTable: seq<string>)
    | NegativeValues(name: string)
    | MissingValues(name: string)
    | MissingRequiredColumns(name: string, columns: seq<string>)

  /** A data frame with named columns whose cells may be NaN (None). */
  datatype Frame<V> = Frame(columns: seq<string>, rows: seq<seq<Option<V>>>)

  predicate FrameWellFormed<V>(df: Frame<V>) {
    forall i :: 0 <= i < |df.rows| ==> |df.rows[i]| == |df.columns|
  }

  /** `sorted(set(a) - set(b))`: the labels of `a` that `b` lacks, once each,
      in code-point order. */
  function SortedDifference(a: seq<string>, b: seq<string>): (r: seq<string>)
    ensures StrictlySorted(r, StrLt)
    ensures Elements(r) == Elements(a) - Elements(b)
  {
    StrLtIsStrictTotalOrder();
    var kept := Filter(a, x => x !in b);
    FilterCounts(a, x => x !in b);
    assert Elements(kept) == Elements(a) - Elements(b) by {
      forall x ensures x in kept <==> x in a && x !in b {
        assert x in kept <==> x in multiset(kept);
        assert x in a <==> x in multiset(a);
      }
    }
    SortedUnique(kept, StrLt)
  }

  /** The "sample_id" column of the metadata. */
  function SampleIds(metadata: Metadata): (ids: seq<string>)
    requires MetadataWellFormed(metadata) && "sample_id" in metadata.columns
    ensures |ids| == |metadata.rows|
  {
    var c := IndexOf(metadata.columns, "sample_id");
    ColumnValues(metadata, c.value)
  }

  /** The samples of the KO table (its columns) and of the metadata must be the
      same set; repetitions and order do not matter. A mismatch reports the
      sorted labels missing on each side. Metadata without a "sample_id"
      column raises a missing-column error. */
  function ValidateSamples(sampleCols: seq<string>, metadata: Metadata): (r: Outcome<ValidationError>)
    requires MetadataWellFormed(metadata)
    ensures "sample_id" !in metadata.columns ==> r == Fail(MissingColumn("sample_id"))
    ensures "sample_id" in metadata.columns ==>
              (r.Pass? <==> Elements(sampleCols) == Elements(SampleIds(metadata)))
    ensures r.Fail? && "sample_id" in metadata.columns ==>
              && r.error.SampleMismatch?
              && StrictlySorted(r.error.missingInMetadata, StrLt)
              && StrictlySorted(r.error.missingInTable, StrLt)
              && Elements(r.error.missingInMetadata) == Elements(sampleCols) - Elements(SampleIds(metadata))
              && Elements(r.error.missingInTable) == Elements(SampleIds(metadata)) - Elements(sampleCols)
  {
    if "sample_id" !in metadata.columns then Fail(MissingColumn("sample_id"))
    else
      var ids := SampleIds(metadata);
      var missingInMetadata := SortedDifference(sampleCols, ids);
      var missingInTable := SortedDifference(ids, sampleCols);
      EmptyIffNoElements(missingInMetadata);
      EmptyIffNoElements(missingInTable);
      if |missingInMetadata| > 0 || |missingInTable| > 0 then
        Fail(SampleMismatch(missingInMetadata, missingInTable))
      else
        Pass
  }

  lemma EmptyIffNoElements(s: seq<string>)
    ensures |s| == 0 <==> Elements(s) == {}
  {
    if |s| > 0 { assert s[0] in Elements(s); }
  }

  /** The check and its report depend only on the two sets of labels: listing
      the table's samples in another order, or repeating some, changes
      nothing. */
  lemma {:induction false} ValidateSamplesSetwise(a: seq<string>, b: seq<string>, metadata: Metadata)
    requires MetadataWellFormed(metadata)
    requires Elements(a) == Elements(b)
    ensures ValidateSamples(a, metadata) == ValidateSamples(b, metadata)
  {
    if "sample_id" in metadata.columns {
      var ids := SampleIds(metadata);
      StrLtIsStrictTotalOrder();
      StrictlySortedUnique(SortedDifference(a, ids), SortedDifference(b, ids), StrLt);
      StrictlySortedUnique(SortedDifference(ids, a), SortedDifference(ids, b), StrLt);
    }
  }

  /** `any()` of a boolean series. */
  function Any(s: seq<bool>): (r: bool)
    ensures r <==> true in s
  {
    if s == [] then false
    else
      assert s == s[..|s| - 1] + [s[|s| - 1]];
      Any(s[..|s| - 1]) || s[|s| - 1]
  }

  /** `df.map(p).any().any()`: `any` down each column, then across the
      columns. It holds exactly when some cell satisfies `p`. */
  function AnyCell<V>(df: Frame<V>, p: Option<V> -> bool): (r: bool)
    requires FrameWellFormed(df)
    ensures r <==> exists i, j :: 0 <= i < |df.rows| && 0 <= j < |df.columns| && p(df.rows[i][j])
  {
    var perColumn := seq(|df.columns|, j requires 0 <= j < |df.columns| =>
                       Any(seq(|df.rows|, i requires 0 <= i < |df.rows| => p(df.rows[i][j]))));
    CellWitness(df, p, perColumn);
    Any(perColumn)
  }

  lemma CellWitness<V>(df: Frame<V>, p: Option<V> -> bool, perColumn: seq<bool>)
    requires FrameWellFormed(df)
    requires |perColumn| == |df.columns|
    requires forall j :: 0 <= j < |df.columns| ==>
               perColumn[j] == Any(seq(|df.rows|, i requires 0 <= i < |df.rows| => p(df.rows[i][j])))
    ensures (true in perColumn) <==>
              exists i, j :: 0 <= i < |df.rows| && 0 <= j < |df.columns| && p(df.rows[i][j])
  {
    if true in perColumn {
      var j :| 0 <= j < |perColumn| && perColumn[j];
      var column := seq(|df.rows|, i requires 0 <= i < |df.rows| => p(df.rows[i][j]));
      var i :| 0 <= i < |column| && column[i];
      assert p(df.rows[i][j]);
    }
    if exists i, j :: 0 <= i < |df.rows| && 0 <= j < |df.columns| && p(df.rows[i][j]) {
      var i, j :| 0 <= i < |df.rows| && 0 <= j < |df.columns| && p(df.rows[i][j]);
      var column := seq(|df.rows|, i requires 0 <= i < |df.rows| => p(df.rows[i][j]));
      assert column[i];
      assert perColumn[j];
    }
  }

  /** `df < 0`: NaN compares false, so a missing cell is never negative. */
  predicate IsNegative(cell: Option<real>) {
    cell.Some? && cell.value < 0.0
  }

  /** `df.isna()`. */
  predicate IsMissing<V>(cell: Option<V>) {
    cell.None?
  }

  /** Raises when some cell is a negative number; NaN cells pass. */
  function ValidateNonNegative(df: Frame<real>, name: string): (r: Outcome<ValidationError>)
    requires FrameWellFormed(df)
    ensures r.Pass? <==> forall i, j :: 0 <= i < |df.rows| && 0 <= j < |df.columns| && df.rows[i][j].Some? ==>
                           df.rows[i][j].value >= 0.0
    ensures r.Fail? ==> r.error == NegativeValues(name)
  {
    if AnyCell(df, IsNegative) then Fail(NegativeValues(name)) else Pass
  }

  /** The required columns the frame lacks, in the order and with the
      repetitions of `required`. */
  function MissingColumns(required: seq<string>, columns: seq<string>): seq<string> {
    Filter(required, c => c !in columns)
  }

  /** A missing column is reported exactly as often as it is required, and
      present columns never are. */
  lemma MissingColumnsExact(required: seq<string>, columns: seq<string>)
    ensures forall c :: multiset(MissingColumns(required, columns))[c] ==
                          if c in columns then 0 else multiset(required)[c]
    ensures forall c :: c in MissingColumns(required, columns) <==> c in required && c !in columns
  {
    FilterCounts(required, c => c !in columns);
    forall c ensures c in MissingColumns(required, columns) <==> c in required && c !in columns {
      assert c in MissingColumns(required, columns) <==> c in multiset(MissingColumns(required, columns));
      assert c in required <==> c in multiset(required);
    }
  }

  /** The report follows the order in which the columns were required. */
  lemma MissingColumnsInOrder(a: seq<string>, b: seq<string>, columns: seq<string>)
    ensures MissingColumns(a + b, columns) == MissingColumns(a, columns) + MissingColumns(b, columns)
  {
    FilterAppend(a, b, c => c !in columns);
  }

  /** `if required_cols:` skips the column check for None and for an empty
      list alike. */
  predicate RequiresColumns(requiredCols: Option<seq<string>>) {
    requiredCols.Some? && |requiredCols.value| > 0
  }

  /** Raises first when any cell is NaN, then when a required column is
      absent, reporting every absent one; otherwise passes. */
  function ValidateNoMissing<V>(df: Frame<V>, name: string, requiredCols: Option<seq<string>>): (r: Outcome<ValidationError>)
    requires FrameWellFormed(df)
    ensures r.Pass? <==>
              && (forall i, j :: 0 <= i < |df.rows| && 0 <= j < |df.columns| ==> df.rows[i][j].Some?)
              && (RequiresColumns(requiredCols) ==> forall c :: c in requiredCols.value ==> c in df.columns)
    ensures (exists i, j :: 0 <= i < |df.rows| && 0 <= j < |df.columns| && df.rows[i][j].None?) ==>
              r == Fail(MissingValues(name))
    ensures r.Fail? && r.error.MissingRequiredColumns? ==>
              && RequiresColumns(requiredCols)
              && r.error == MissingRequiredColumns(name, MissingColumns(requiredCols.value, df.columns))
              && |r.error.columns| > 0
    ensures && (forall i, j :: 0 <= i < |df.rows| && 0 <= j < |df.columns| ==> df.rows[i][j].Some?)
            && RequiresColumns(requiredCols)
            && (exists c :: c in requiredCols.value && c !in df.columns) ==>
              r == Fail(MissingRequiredColumns(name, MissingColumns(requiredCols.value, df.columns)))
  {
    if AnyCell(df, IsMissing) then Fail(MissingValues(name))
    else if RequiresColumns(requiredCols) then
      var missing := MissingColumns(requiredCols.value, df.columns);
      MissingColumnsExact(requiredCols.value, df.columns);
      if |missing| > 0 then Fail(MissingRequiredColumns(name, missing))
      else
        assert forall c :: c in requiredCols.value ==> c in df.columns;
        Pass
    else Pass
  }
}
