/**
 * `buildSummaryView`: the summary query's rows go through `getSummaryData`
 * and then `buildSummaryTable`; what comes out reconciles with the
 * transaction lines that went in.
 */
module SummaryView {
  import opened Wrappers
  import opened Sums
  import opened Taxonomy
  import opened SummaryQuery
  import opened SummaryData
  import opened SummaryTable

  /** Summing a column over the records is summing it per group over the lines. */
  lemma {:induction false} RecordSumsAreGroupSums(records: seq<SummaryRecord>, ls: seq<Line>, ps: seq<Path>, col: Column)
    requires |records| == |ps|
    requires forall i :: 0 <= i < |ps| ==> records[i].Amount(col) == SumWhere(ls, PathOf, ps[i], ColumnCase(col))
    ensures ColumnSum(records, col) == SumOverKeys(ls, PathOf, ps, ColumnCase(col))
  {
    if ps != [] {
      var n := |ps| - 1;
      RecordSumsAreGroupSums(records[..n], ls, ps[..n], col);
    }
  }

  /**
   * End to end: every column of the records `getSummaryData` makes from the
   * query's rows sums to that column's CASE over all kept lines; in
   * particular the "All Brands Total" is the negated net amount of every line.
   */
  lemma SummaryReconcilesWithLines(lines: seq<Line>, records: seq<SummaryRecord>, col: Column)
    requires |records| == |QueryRows(lines)|
    requires forall i :: 0 <= i < |records| ==> records[i] == ToRecord(QueryRows(lines)[i])
    ensures ColumnSum(records, col) == Sum(Keep(lines), ColumnCase(col))
  {
    var ls := Keep(lines);
    var ps := DistinctKeys(ls, PathOf);
    QueryRowsAreGroups(lines, col);
    forall i | 0 <= i < |ps|
      ensures records[i].Amount(col) == SumWhere(ls, PathOf, ps[i], ColumnCase(col))
    {
      ToRecordAmount(QueryRows(lines)[i], col);
    }
    RecordSumsAreGroupSums(records, ls, ps, col);
    GroupsPartitionLines(lines, col);
  }

  /**
   * The summary view over a set of transaction lines: the records and
   * category totals of `getSummaryData`, and the total row of
   * `buildSummaryTable`, which agrees with the lines, with the records and
   * with the category totals.
   */
  method BuildSummaryView(lines: seq<Line>)
    returns (records: seq<SummaryRecord>, categoryTotals: map<string, CategoryTotal>, totals: SummaryTotals)
    ensures |records| == |QueryRows(lines)|
    ensures forall i :: 0 <= i < |records| ==> records[i] == ToRecord(QueryRows(lines)[i])
    ensures IsCategoryTotals(records, categoryTotals)
    ensures forall col :: totals.Amount(col) == ColumnSum(records, col)
    ensures forall col :: totals.Amount(col) == Sum(Keep(lines), ColumnCase(col))
    ensures forall col :: totals.Amount(col) == Sum(lines, KeptPart(ColumnCase(col)))
    ensures forall ks, col :: Distinct(ks) && (forall k :: k in ks <==> k in categoryTotals) ==>
              EntrySum(categoryTotals, ks, col) == totals.Amount(col)
  {
    records, categoryTotals := GetSummaryData(QueryRows(lines));
    totals := BuildSummaryTotals(records);
    forall col ensures totals.Amount(col) == Sum(Keep(lines), ColumnCase(col)) {
      SummaryReconcilesWithLines(lines, records, col);
    }
    forall col ensures totals.Amount(col) == Sum(lines, KeptPart(ColumnCase(col))) {
      KeepSum(lines, ColumnCase(col));
    }
    forall ks: seq<string>, col | Distinct(ks) && (forall k :: k in ks <==> k in categoryTotals)
      ensures EntrySum(categoryTotals, ks, col) == totals.Amount(col)
    {
      CategoryTotalsReconcile(records, categoryTotals, ks, col);
    }
  }
}
