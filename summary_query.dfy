/**
 * The summary query: transaction lines joined with their items, grouped by
 * the three classification columns, with the negated net amount summed into
 * four fixed brand columns, an "other brands" column and a grand total.
 *
 * The database is not modelled; what it computes for the SELECT list and the
 * GROUP BY is, over the lines that satisfy the WHERE clause.
 */
module SummaryQuery {
  import opened Wrappers
  import opened Sums
  import opened Taxonomy

  /** Brand ids of the four hard-coded brand columns. */
  const ProfileBrand: int := 48
  const GeBrand: int := 26
  const CafeBrand: int := 15
  const MonogramBrand: int := 43
  const SelectedBrands: seq<int> := [ProfileBrand, GeBrand, CafeBrand, MonogramBrand]

  /** The amount columns of the report, in table order. */
  datatype Column = Profile | Ge | Cafe | Monogram | OtherBrands | AllBrands

  /**
   * One transaction line joined with its item: the item's classification text
   * and brand (both nullable), the line's net amount and quantity (in cents
   * and units, with the ledger's sign) and its transaction's id.
   */
  datatype Line = Line(
    taxonomy: Option<string>,
    brand: Option<int>,
    netAmount: int,
    quantity: int,
    transactionId: int)

  /** `i.custitem_ns_temp_prod IS NOT NULL` (the empty string is NULL too). */
  predicate Kept(l: Line)
  {
    l.taxonomy.Some? && l.taxonomy.value != []
  }

  /** The lines the WHERE clause keeps, in order. */
  function Keep(lines: seq<Line>): (r: seq<Line>)
    ensures forall i :: 0 <= i < |r| ==> Kept(r[i])
    ensures forall l :: l in r <==> l in lines && Kept(l)
  {
    if lines == [] then []
    else
      var init := Keep(lines[..|lines| - 1]);
      var l := lines[|lines| - 1];
      assert lines == lines[..|lines| - 1] + [l];
      if Kept(l) then init + [l] else init
  }

  /** `f` on a line the WHERE clause keeps, zero on a line it drops. */
  function KeptPart(f: Line -> int): (g: Line -> int)
    ensures forall l :: g(l) == if Kept(l) then f(l) else 0
  {
    (l: Line) => if Kept(l) then f(l) else 0
  }

  /**
   * Summing over the kept lines is summing over all lines with the dropped
   * ones counting zero: `Keep` keeps every kept line once, as often as it
   * occurs, and nothing else.
   */
  lemma {:induction false} KeepSum(lines: seq<Line>, f: Line -> int)
    ensures Sum(Keep(lines), f) == Sum(lines, KeptPart(f))
  {
    if lines != [] {
      var init, l := lines[..|lines| - 1], lines[|lines| - 1];
      KeepSum(init, f);
      var k := Keep(init);
      if Kept(l) {
        assert Keep(lines) == k + [l];
        assert (k + [l])[..|k + [l]| - 1] == k;
      } else {
        assert Keep(lines) == k;
      }
    }
  }

  /** The grouping key of a line. */
  function PathOf(l: Line): Path
  {
    Decompose(l.taxonomy.GetOr([]))
  }

  /** `tl.netAmount * -1`: invoices are stored negative, so sales come out positive. */
  function Sales(l: Line): int
  {
    -l.netAmount
  }

  /** `tl.quantity * -1`. */
  function Units(l: Line): int
  {
    -l.quantity
  }

  /**
   * `CASE WHEN i.custitem_bas_item_brand = id THEN amount ELSE 0 END`.
   * A NULL brand makes the comparison unknown, so the ELSE branch is taken.
   */
  function BrandCase(brand: Option<int>, id: int, amount: int): (r: int)
    ensures brand == Some(id) ==> r == amount
    ensures brand != Some(id) ==> r == 0
  {
    match brand
    case Some(b) => if b == id then amount else 0
    case None => 0
  }

  /**
   * `CASE WHEN i.custitem_bas_item_brand NOT IN (48, 26, 15, 43) THEN amount ELSE 0 END`.
   * `NULL NOT IN (...)` is unknown too, so a NULL brand lands here neither.
   */
  function OtherCase(brand: Option<int>, amount: int): (r: int)
    ensures brand.Some? && brand.value !in SelectedBrands ==> r == amount
    ensures brand.None? || brand.value in SelectedBrands ==> r == 0
  {
    match brand
    case Some(b) => if b !in SelectedBrands then amount else 0
    case None => 0
  }

  function ProfileSales(l: Line): int { BrandCase(l.brand, ProfileBrand, Sales(l)) }
  function GeSales(l: Line): int { BrandCase(l.brand, GeBrand, Sales(l)) }
  function CafeSales(l: Line): int { BrandCase(l.brand, CafeBrand, Sales(l)) }
  function MonogramSales(l: Line): int { BrandCase(l.brand, MonogramBrand, Sales(l)) }
  function OtherSales(l: Line): int { OtherCase(l.brand, Sales(l)) }

  /** The sales of a line with a NULL brand: counted by `total_amount` only. */
  function UnbrandedSales(l: Line): int
  {
    if l.brand.None? then Sales(l) else 0
  }

  /** The summand of each amount column of the SELECT list. */
  function ColumnCase(col: Column): Line -> int
  {
    match col
    case Profile => ProfileSales
    case Ge => GeSales
    case Cafe => CafeSales
    case Monogram => MonogramSales
    case OtherBrands => OtherSales
    case AllBrands => Sales
  }

  /** The five columns that take a line according to its brand. */
  predicate IsBrandColumn(col: Column)
  {
    col != AllBrands
  }

  /**
   * Each line's sales land in at most one brand column (one of the four
   * brands or "other"), in exactly one when its brand is not NULL, and always
   * in `total_amount`: total = the five brand columns + the NULL-brand part.
   */
  lemma LineBucket(l: Line)
    ensures Sales(l) == ProfileSales(l) + GeSales(l) + CafeSales(l) + MonogramSales(l)
                        + OtherSales(l) + UnbrandedSales(l)
    ensures forall c1, c2 :: IsBrandColumn(c1) && IsBrandColumn(c2) && c1 != c2 ==>
              ColumnCase(c1)(l) == 0 || ColumnCase(c2)(l) == 0
    ensures l.brand.None? ==> forall c :: IsBrandColumn(c) ==> ColumnCase(c)(l) == 0
  {
  }

  /** A row of the query's result, by column alias; a NULL column is None. */
  datatype QueryRow = QueryRow(
    class1: Option<string>,
    class2: Option<string>,
    class3: Option<string>,
    profileAmount: Option<int>,
    geAmount: Option<int>,
    cafeAmount: Option<int>,
    monogramAmount: Option<int>,
    otherBrandsAmount: Option<int>,
    totalAmount: Option<int>,
    transactionCount: Option<int>,
    lineCount: Option<int>)
  {
    /** The column `col` of this row. */
    function Amount(col: Column): Option<int>
    {
      match col
      case Profile => profileAmount
      case Ge => geAmount
      case Cafe => cafeAmount
      case Monogram => monogramAmount
      case OtherBrands => otherBrandsAmount
      case AllBrands => totalAmount
    }
  }

  /** `COUNT(DISTINCT t.id)` over the lines of group `p`. */
  function TransactionIds(ls: seq<Line>, p: Path): set<int>
  {
    set i | 0 <= i < |ls| && PathOf(ls[i]) == p :: ls[i].transactionId
  }

  function TransactionCount(ls: seq<Line>, p: Path): nat
  {
    |TransactionIds(ls, p)|
  }

  /** The result row of group `p` (every SUM is over a non-empty group, so never NULL). */
  function GroupRow(ls: seq<Line>, p: Path): QueryRow
  {
    QueryRow(
      p.class1, p.class2, p.class3,
      Some(SumWhere(ls, PathOf, p, ColumnCase(Profile))),
      Some(SumWhere(ls, PathOf, p, ColumnCase(Ge))),
      Some(SumWhere(ls, PathOf, p, ColumnCase(Cafe))),
      Some(SumWhere(ls, PathOf, p, ColumnCase(Monogram))),
      Some(SumWhere(ls, PathOf, p, ColumnCase(OtherBrands))),
      Some(SumWhere(ls, PathOf, p, ColumnCase(AllBrands))),
      Some(TransactionCount(ls, p)),
      Some(SumWhere(ls, PathOf, p, Units)))
  }

  /** The row of group `p` carries the group's path, and each amount column is its CASE summed over the group. */
  lemma GroupRowColumns(ls: seq<Line>, p: Path, col: Column)
    ensures GroupRow(ls, p).class1 == p.class1 && GroupRow(ls, p).class2 == p.class2
    ensures GroupRow(ls, p).class3 == p.class3
    ensures GroupRow(ls, p).Amount(col) == Some(SumWhere(ls, PathOf, p, ColumnCase(col)))
  {
    match col
    case Profile =>
    case Ge =>
    case Cafe =>
    case Monogram =>
    case OtherBrands =>
    case AllBrands =>
  }

  /** The result of the summary query: one row per group. */
  function QueryRows(lines: seq<Line>): seq<QueryRow>
  {
    var ls := Keep(lines);
    var ps := DistinctKeys(ls, PathOf);
    seq(|ps|, i requires 0 <= i < |ps| => GroupRow(ls, ps[i]))
  }

  /**
   * Reconciliation of one group: `total_amount` equals the four brand
   * columns plus `other_brands_amount` plus the sales of the group's lines
   * whose brand is NULL.
   */
  lemma {:induction false} GroupReconciles(ls: seq<Line>, p: Path)
    ensures SumWhere(ls, PathOf, p, Sales)
         == SumWhere(ls, PathOf, p, ProfileSales) + SumWhere(ls, PathOf, p, GeSales)
          + SumWhere(ls, PathOf, p, CafeSales) + SumWhere(ls, PathOf, p, MonogramSales)
          + SumWhere(ls, PathOf, p, OtherSales) + SumWhere(ls, PathOf, p, UnbrandedSales)
  {
    if ls != [] {
      GroupReconciles(ls[..|ls| - 1], p);
      LineBucket(ls[|ls| - 1]);
    }
  }

  /**
   * The query's rows are one per distinct classification path of the kept
   * lines, with no path twice, and each row's column `col` is the sum of that
   * column's CASE over exactly the lines of its path.
   */
  lemma QueryRowsAreGroups(lines: seq<Line>, col: Column)
    ensures |QueryRows(lines)| == |DistinctKeys(Keep(lines), PathOf)|
    ensures forall i :: 0 <= i < |QueryRows(lines)| ==>
              var p := DistinctKeys(Keep(lines), PathOf)[i];
              && QueryRows(lines)[i].class1 == p.class1
              && QueryRows(lines)[i].class2 == p.class2
              && QueryRows(lines)[i].class3 == p.class3
              && QueryRows(lines)[i].Amount(col) == Some(SumWhere(Keep(lines), PathOf, p, ColumnCase(col)))
  {
    var ls := Keep(lines);
    var ps := DistinctKeys(ls, PathOf);
    var rows := QueryRows(lines);
    assert |rows| == |ps|;
    forall i | 0 <= i < |rows|
      ensures rows[i] == GroupRow(ls, ps[i])
      ensures rows[i].Amount(col) == Some(SumWhere(ls, PathOf, ps[i], ColumnCase(col)))
    {
      GroupRowColumns(ls, ps[i], col);
    }
  }

  /**
   * Over the whole result, the per-group sums of a column add up to that
   * column's CASE summed over every kept line: no line is lost or counted twice.
   */
  lemma GroupsPartitionLines(lines: seq<Line>, col: Column)
    ensures SumOverKeys(Keep(lines), PathOf, DistinctKeys(Keep(lines), PathOf), ColumnCase(col))
         == Sum(Keep(lines), ColumnCase(col))
  {
    Partition(Keep(lines), PathOf, DistinctKeys(Keep(lines), PathOf), ColumnCase(col));
  }
}
