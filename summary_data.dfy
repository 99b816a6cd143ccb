/**
 * `getSummaryData`: reads the summary query's rows one by one, turns each
 * into a result record (NULL or empty text becomes "-", a missing or
 * non-numeric amount becomes 0) and accumulates the per-category totals
 * used as percentage denominators.
 */
module SummaryData {
  import opened Wrappers
  import opened Sums
  import opened SummaryQuery

  /** One result record of the summary view. */
  datatype SummaryRecord = SummaryRecord(
    class1: string,
    class2: string,
    class3: string,
    profileAmount: int,
    geAmount: int,
    cafeAmount: int,
    monogramAmount: int,
    otherBrandsAmount: int,
    totalAmount: int,
    transactionCount: int,
    lineCount: int)
  {
    function Amount(col: Column): int
    {
      match col
      case Profile => profileAmount
      case Ge => geAmount
      case Cafe => cafeAmount
      case Monogram => monogramAmount
      case OtherBrands => otherBrandsAmount
      case AllBrands => totalAmount
    }
  }

  /** One entry of `categoryTotals`. */
  datatype CategoryTotal = CategoryTotal(
    profileAmount: int,
    geAmount: int,
    cafeAmount: int,
    monogramAmount: int,
    otherBrandsAmount: int,
    totalAmount: int)
  {
    function Amount(col: Column): int
    {
      match col
      case Profile => profileAmount
      case Ge => geAmount
      case Cafe => cafeAmount
      case Monogram => monogramAmount
      case OtherBrands => otherBrandsAmount
      case AllBrands => totalAmount
    }
  }

  /** The entry a category starts with. */
  const ZeroTotal := CategoryTotal(0, 0, 0, 0, 0, 0)

  /** `value || '-'`: NULL and the empty string are both falsy. */
  function OrDash(value: Option<string>): (r: string)
    ensures r != []
    ensures value.Some? && value.value != [] ==> r == value.value
    ensures value.None? || value.value == [] ==> r == "-"
  {
    match value
    case Some(s) => if s != [] then s else "-"
    case None => "-"
  }

  /** `parseFloat(value) || 0` / `parseInt(value) || 0`: NULL or not a number gives 0. */
  function NumberOrZero(value: Option<int>): int
  {
    value.GetOr(0)
  }

  /** The record `getSummaryData` pushes for one query row. */
  function ToRecord(row: QueryRow): SummaryRecord
  {
    SummaryRecord(
      OrDash(row.class1), OrDash(row.class2), OrDash(row.class3),
      NumberOrZero(row.profileAmount), NumberOrZero(row.geAmount),
      NumberOrZero(row.cafeAmount), NumberOrZero(row.monogramAmount),
      NumberOrZero(row.otherBrandsAmount), NumberOrZero(row.totalAmount),
      NumberOrZero(row.transactionCount), NumberOrZero(row.lineCount))
  }

  /** Each amount column of the record is the row's column, with a missing value read as 0. */
  lemma ToRecordAmount(row: QueryRow, col: Column)
    ensures ToRecord(row).Amount(col) == NumberOrZero(row.Amount(col))
    ensures ToRecord(row).class1 == OrDash(row.class1)
  {
    match col
    case Profile =>
    case Ge =>
    case Cafe =>
    case Monogram =>
    case OtherBrands =>
    case AllBrands =>
  }

  /** The records of a prefix of the query's rows, one per row, in order. */
  function ToRecords(rows: seq<QueryRow>): seq<SummaryRecord>
  {
    if rows == [] then [] else ToRecords(rows[..|rows| - 1]) + [ToRecord(rows[|rows| - 1])]
  }

  lemma {:induction false} ToRecordsIndex(rows: seq<QueryRow>)
    ensures |ToRecords(rows)| == |rows|
    ensures forall i :: 0 <= i < |rows| ==> ToRecords(rows)[i] == ToRecord(rows[i])
  {
    if rows != [] {
      ToRecordsIndex(rows[..|rows| - 1]);
    }
  }

  /** Adds a record's amounts into a category entry (the six `+=` lines). */
  function Accumulate(t: CategoryTotal, r: SummaryRecord): (u: CategoryTotal)
    ensures forall col :: u.Amount(col) == t.Amount(col) + r.Amount(col)
  {
    CategoryTotal(
      t.profileAmount + r.profileAmount, t.geAmount + r.geAmount,
      t.cafeAmount + r.cafeAmount, t.monogramAmount + r.monogramAmount,
      t.otherBrandsAmount + r.otherBrandsAmount, t.totalAmount + r.totalAmount)
  }

  function CategoryOf(r: SummaryRecord): string
  {
    r.class1
  }

  function AmountOf(col: Column): SummaryRecord -> int
  {
    (r: SummaryRecord) => r.Amount(col)
  }

  /** Column `col` summed over the records of category `c`. */
  function CategorySum(records: seq<SummaryRecord>, c: string, col: Column): int
  {
    SumWhere(records, CategoryOf, c, AmountOf(col))
  }

  /** Column `col` summed over all records. */
  function ColumnSum(records: seq<SummaryRecord>, col: Column): int
  {
    Sum(records, AmountOf(col))
  }

  /**
   * `totals` is the category-totals dictionary of `records`: its keys are
   * exactly the categories of the records, and each entry's every column is
   * the sum of that column over the records of its category.
   */
  ghost predicate IsCategoryTotals(records: seq<SummaryRecord>, totals: map<string, CategoryTotal>)
  {
    && (forall c :: c in totals <==> exists i :: 0 <= i < |records| && records[i].class1 == c)
    && (forall c, col :: c in totals ==> totals[c].Amount(col) == CategorySum(records, c, col))
  }

  /** A category with no record sums to zero. */
  lemma {:induction false} CategorySumAbsent(records: seq<SummaryRecord>, c: string, col: Column)
    requires forall i :: 0 <= i < |records| ==> records[i].class1 != c
    ensures CategorySum(records, c, col) == 0
  {
    if records != [] {
      var init := records[..|records| - 1];
      assert forall i :: 0 <= i < |init| ==> init[i] == records[i];
      CategorySumAbsent(init, c, col);
    }
  }

  /** One step of the loop keeps the dictionary equal to the totals of the records so far. */
  lemma AccumulateStep(records: seq<SummaryRecord>, totals: map<string, CategoryTotal>, r: SummaryRecord)
    requires IsCategoryTotals(records, totals)
    ensures IsCategoryTotals(records + [r],
              totals[r.class1 := Accumulate(if r.class1 in totals then totals[r.class1] else ZeroTotal, r)])
  {
    var next := records + [r];
    assert next[..|next| - 1] == records;
    var c := r.class1;
    if c !in totals {
      forall col ensures CategorySum(records, c, col) == 0 {
        CategorySumAbsent(records, c, col);
      }
    }
    var totals' := totals[c := Accumulate(if c in totals then totals[c] else ZeroTotal, r)];
    forall k, col | k in totals' ensures totals'[k].Amount(col) == CategorySum(next, k, col) {
      assert CategorySum(next, k, col)
          == CategorySum(records, k, col) + (if k == c then r.Amount(col) else 0);
    }
    forall k ensures k in totals' <==> exists i :: 0 <= i < |next| && next[i].class1 == k {
      if k in totals' && k != c {
        var i :| 0 <= i < |records| && records[i].class1 == k;
        assert next[i] == records[i];
      }
      if k == c {
        assert next[|records|].class1 == k;
      }
      if exists i :: 0 <= i < |next| && next[i].class1 == k {
        var i :| 0 <= i < |next| && next[i].class1 == k;
        if i < |records| {
          assert records[i] == next[i];
        }
      }
    }
  }

  /**
   * The loop of `getSummaryData`: one record per query row, in query order,
   * and the category totals of those records.
   */
  method GetSummaryData(rows: seq<QueryRow>) returns (records: seq<SummaryRecord>, categoryTotals: map<string, CategoryTotal>)
    ensures |records| == |rows|
    ensures forall i :: 0 <= i < |rows| ==> records[i] == ToRecord(rows[i])
    ensures IsCategoryTotals(records, categoryTotals)
  {
    records := [];
    categoryTotals := map[];
    var i := 0;
    while i < |rows|
      invariant 0 <= i <= |rows|
      invariant records == ToRecords(rows[..i])
      invariant IsCategoryTotals(records, categoryTotals)
    {
      var record := ToRecord(rows[i]);
      var category := record.class1;
      var entry := if category in categoryTotals then categoryTotals[category] else ZeroTotal;
      AccumulateStep(records, categoryTotals, record);
      categoryTotals := categoryTotals[category := Accumulate(entry, record)];
      assert rows[..i + 1][..i] == rows[..i];
      records := records + [record];
      i := i + 1;
    }
    assert rows[..i] == rows;
    ToRecordsIndex(rows);
  }
}
