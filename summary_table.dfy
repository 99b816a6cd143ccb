/**
 * The arithmetic of `buildSummaryTable`: the grand-total row accumulated
 * row by row, the "selected brands" sum of each row, and each row's
 * percentage of its category's total.
 */
module SummaryTable {
  import opened Wrappers
  import opened Sums
  import opened SummaryQuery
  import opened SummaryData

  /** The `totals` accumulator of the summary row. */
  datatype SummaryTotals = SummaryTotals(
    profileAmount: int,
    geAmount: int,
    cafeAmount: int,
    monogramAmount: int,
    selectedBrandsTotal: int,
    otherBrandsAmount: int,
    totalAmount: int,
    transactionCount: int,
    lineCount: int)
  {
    function Amount(col: Column): int
    {
      match col
      case Profile => profileAmount
      case Ge => geAmount
      case Cafe => cafeAmount
      case Monogram => monogramAmount
      case OtherBrands => otherBrandsAmount
      case AllBrands => totalAmount
    }
  }

  /** A row's "Selected Brands Total": the four hard-coded brand columns. */
  function SelectedBrandsTotal(row: SummaryRecord): int
  {
    row.profileAmount + row.geAmount + row.cafeAmount + row.monogramAmount
  }

  function TransactionCountOf(row: SummaryRecord): int
  {
    row.transactionCount
  }

  function LineCountOf(row: SummaryRecord): int
  {
    row.lineCount
  }

  /**
   * The accumulation loop of `buildSummaryTable`: every column of the total
   * row is that column summed over all rows, and its "selected brands" cell
   * is the sum of the four brand totals.
   */
  method BuildSummaryTotals(data: seq<SummaryRecord>) returns (totals: SummaryTotals)
    ensures forall col :: totals.Amount(col) == ColumnSum(data, col)
    ensures totals.selectedBrandsTotal
         == totals.profileAmount + totals.geAmount + totals.cafeAmount + totals.monogramAmount
    ensures totals.transactionCount == Sum(data, TransactionCountOf)
    ensures totals.lineCount == Sum(data, LineCountOf)
  {
    totals := SummaryTotals(0, 0, 0, 0, 0, 0, 0, 0, 0);
    var i := 0;
    while i < |data|
      invariant 0 <= i <= |data|
      invariant forall col :: totals.Amount(col) == ColumnSum(data[..i], col)
      invariant totals.selectedBrandsTotal
             == totals.profileAmount + totals.geAmount + totals.cafeAmount + totals.monogramAmount
      invariant totals.transactionCount == Sum(data[..i], TransactionCountOf)
      invariant totals.lineCount == Sum(data[..i], LineCountOf)
    {
      var row := data[i];
      var selectedBrandsTotal := SelectedBrandsTotal(row);
      assert data[..i + 1][..i] == data[..i];
      forall col ensures ColumnSum(data[..i + 1], col) == ColumnSum(data[..i], col) + row.Amount(col) {
      }
      totals := totals.(
        profileAmount := totals.profileAmount + row.profileAmount,
        geAmount := totals.geAmount + row.geAmount,
        cafeAmount := totals.cafeAmount + row.cafeAmount,
        monogramAmount := totals.monogramAmount + row.monogramAmount,
        selectedBrandsTotal := totals.selectedBrandsTotal + selectedBrandsTotal,
        otherBrandsAmount := totals.otherBrandsAmount + row.otherBrandsAmount,
        totalAmount := totals.totalAmount + row.totalAmount,
        transactionCount := totals.transactionCount + row.transactionCount,
        lineCount := totals.lineCount + row.lineCount);
      i := i + 1;
    }
    assert data[..i] == data;
  }

  /**
   * `catTotal.x > 0 ? (row.x / catTotal.x * 100) : '0.00'`, exactly: zero
   * unless the denominator is positive, otherwise the share times 100.
   */
  function Percent(part: int, whole: int): (r: real)
    ensures whole <= 0 ==> r == 0.0
    ensures whole > 0 ==> r * whole as real == part as real * 100.0
    ensures 0 <= part <= whole ==> 0.0 <= r <= 100.0
  {
    if whole > 0 then part as real / whole as real * 100.0 else 0.0
  }

  /** `categoryTotals[row.class1] || {...: 0}`: a missing category reads as zeros. */
  function CategoryEntry(totals: map<string, CategoryTotal>, c: string): CategoryTotal
  {
    if c in totals then totals[c] else ZeroTotal
  }

  /**
   * The percentage cell of column `col` in a row: the row's share of its
   * category's total of the same column; 0 when the category has no entry
   * or its total is not positive.
   */
  function ColumnPercent(row: SummaryRecord, col: Column, totals: map<string, CategoryTotal>): (r: real)
    ensures row.class1 !in totals ==> r == 0.0
    ensures row.class1 in totals && totals[row.class1].Amount(col) <= 0 ==> r == 0.0
    ensures row.class1 in totals && totals[row.class1].Amount(col) > 0 ==>
              r * totals[row.class1].Amount(col) as real == row.Amount(col) as real * 100.0
  {
    Percent(row.Amount(col), CategoryEntry(totals, row.class1).Amount(col))
  }

  /**
   * The "Selected Brands %" cell: the row's four-brand sum as a share of the
   * category's all-brands total (not of the category's four-brand total).
   */
  function SelectedBrandsPercent(row: SummaryRecord, totals: map<string, CategoryTotal>): (r: real)
    ensures row.class1 !in totals || totals[row.class1].totalAmount <= 0 ==> r == 0.0
    ensures row.class1 in totals && totals[row.class1].totalAmount > 0 ==>
              r * totals[row.class1].totalAmount as real == SelectedBrandsTotal(row) as real * 100.0
  {
    Percent(SelectedBrandsTotal(row), CategoryEntry(totals, row.class1).totalAmount)
  }

  /** The percentage cells of column `col` summed over the rows of category `c`. */
  function CategoryPercentSum(data: seq<SummaryRecord>, c: string, col: Column, totals: map<string, CategoryTotal>): real
  {
    if data == [] then 0.0
    else CategoryPercentSum(data[..|data| - 1], c, col, totals)
         + (if data[|data| - 1].class1 == c then ColumnPercent(data[|data| - 1], col, totals) else 0.0)
  }

  /** The cells of one category share one denominator, so their sum is the category sum's share. */
  lemma {:induction false} CategoryPercentSumShare(data: seq<SummaryRecord>, c: string, col: Column,
                                                   totals: map<string, CategoryTotal>)
    requires c in totals && totals[c].Amount(col) > 0
    ensures CategoryPercentSum(data, c, col, totals)
         == CategorySum(data, c, col) as real / totals[c].Amount(col) as real * 100.0
  {
    if data != [] {
      var init := data[..|data| - 1];
      CategoryPercentSumShare(init, c, col, totals);
      var d := totals[c].Amount(col) as real;
      var last := data[|data| - 1];
      if last.class1 == c {
        assert ColumnPercent(last, col, totals) == last.Amount(col) as real / d * 100.0;
        assert CategorySum(data, c, col) == CategorySum(init, c, col) + last.Amount(col);
        ShareAdd(CategorySum(init, c, col) as real, last.Amount(col) as real, d);
      } else {
        assert CategorySum(data, c, col) == CategorySum(init, c, col);
      }
    }
  }

  /**
   * With exact arithmetic, a column's percentages over the rows of one
   * category add up to 100 whenever that category's total of the column is
   * positive.
   */
  lemma CategoryPercentagesSumTo100(data: seq<SummaryRecord>, totals: map<string, CategoryTotal>,
                                    c: string, col: Column)
    requires IsCategoryTotals(data, totals)
    requires c in totals && totals[c].Amount(col) > 0
    ensures CategoryPercentSum(data, c, col, totals) == 100.0
  {
    CategoryPercentSumShare(data, c, col, totals);
    var d := totals[c].Amount(col);
    assert CategorySum(data, c, col) == d;
    WholeShare(d as real);
  }

  lemma ShareAdd(a: real, b: real, d: real)
    requires d > 0.0
    ensures a / d * 100.0 + b / d * 100.0 == (a + b) / d * 100.0
  {
  }

  lemma WholeShare(d: real)
    requires d > 0.0
    ensures d / d * 100.0 == 100.0
  {
  }

  /** The entries of `totals` listed in `ks`, column `col` summed. */
  function EntrySum(totals: map<string, CategoryTotal>, ks: seq<string>, col: Column): int
    requires forall k :: k in ks ==> k in totals
  {
    if ks == [] then 0 else EntrySum(totals, ks[..|ks| - 1], col) + totals[ks[|ks| - 1]].Amount(col)
  }

  /**
   * Reconciliation: for the category totals of the records, summing a
   * column over all entries of the dictionary (in any order, each key once)
   * gives the same as the total row's cell for that column.
   */
  lemma {:induction false} CategoryTotalsReconcile(data: seq<SummaryRecord>, totals: map<string, CategoryTotal>,
                                                   ks: seq<string>, col: Column)
    requires IsCategoryTotals(data, totals)
    requires Distinct(ks) && forall k :: k in ks <==> k in totals
    ensures EntrySum(totals, ks, col) == ColumnSum(data, col)
  {
    forall i | 0 <= i < |data| ensures CategoryOf(data[i]) in ks {
      assert data[i].class1 in totals;
    }
    EntriesAreKeySums(data, totals, ks, col);
    Partition(data, CategoryOf, ks, AmountOf(col));
  }

  lemma {:induction false} EntriesAreKeySums(data: seq<SummaryRecord>, totals: map<string, CategoryTotal>,
                                             ks: seq<string>, col: Column)
    requires IsCategoryTotals(data, totals)
    requires forall k :: k in ks ==> k in totals
    ensures EntrySum(totals, ks, col) == SumOverKeys(data, CategoryOf, ks, AmountOf(col))
  {
    if ks != [] {
      EntriesAreKeySums(data, totals, ks[..|ks| - 1], col);
    }
  }
}
