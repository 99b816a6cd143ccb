# Brand category sales report: a Dafny model

This model covers the core of a NetSuite Suitelet that reports invoice and credit-memo sales by product classification and brand. Its source is `brand_category_sales_suitelet.js`. The pieces modelled are:

- **Taxonomy decomposition.** The item field `custitem_ns_temp_prod` is read as a three-level classification: category (class_1), sub-category (class_2) and configuration (class_3). The phrase `Built-In` is first collapsed to `BuiltIn`, and the text is then split at its first two hyphens (`taxonomy.dfy`). `formatDisplayText` turns `BuiltIn` back into `Built-In` for display.
- **The summary query's columns and grouping.** Each transaction line's negated net amount goes into one of four hard-coded brand columns: Profile (48), GE (26), Café (15) or Monogram (43). Other brands go to an "other brands" column, and every line counts toward the grand total. The lines are grouped by the three classification columns (`summary_query.dfy`). The database itself is not modelled. What the SELECT list and GROUP BY compute is modelled, over the lines that satisfy the WHERE clause.
- **`getSummaryData`.** It reads the result rows one by one, turning each into a display record and accumulating a per-category totals dictionary (`summary_data.dfy`). This is a method with a loop.
- **`buildSummaryTable`.** The grand-total row is accumulated row by row; this is also a method with a loop. Each row's share of its category's total is computed as a percentage (`summary_table.dfy`).
- **End to end.** The records, dictionary and total row reconcile with the transaction lines that went in (`summary_view.dfy`).
- **The detail query's filter conditions.** Each filter value is embedded in a SQL string literal with its quotes doubled. The date filters are handled too (`filters.dfy`).
- **`escapeHtml` and `formatCurrency`** (`html.dfy`, `currency.dfy`).

`sums.dfy`, `text.dfy` and `wrappers.dfy` hold generic helpers:

- sums over sequences, with a partition lemma;
- `replace(/…/g)`-style text replacement and index search;
- an `Option` type.

Modelling conventions:

- **Amounts are integers (cents).** Percentages are exact `real`s.
- **NULL is `None`.** SuiteQL runs on Oracle, where the empty string is NULL. So an empty piece of the split comes back as NULL (`Taxonomy.SqlText`), and an empty taxonomy fails `IS NOT NULL`.
- **Falsiness.** JavaScript's `value || '-'` treats NULL and `''` alike (`SummaryData.OrDash`). `parseFloat(x) || 0` turns a missing or non-numeric value into 0 (`SummaryData.NumberOrZero`).

## Model

| member | source | states |
|---|---|---|
| Text.IndexOf | brand_category_sales_suitelet.js:337 | `INSTR(x, '-') - 1`: no position exactly when the text holds no hyphen; otherwise the position of a hyphen with no hyphen before it. |
| Taxonomy.SecondHyphen | brand_category_sales_suitelet.js:342 | The second hyphen lies after the first one and there is no hyphen between them. When there is no second hyphen, nothing after the first hyphen is a hyphen. |
| Taxonomy.Class1 | brand_category_sales_suitelet.js:336-340 | class_1 never holds a hyphen. It is the whole collapsed text when that has no hyphen; otherwise it is the prefix that ends just before the first hyphen. |
| Taxonomy.Class2 | brand_category_sales_suitelet.js:341-349 | class_2 is NULL exactly when the text has no hyphen. It never holds a hyphen. class_1, a hyphen and class_2 form a prefix of the text. |
| Taxonomy.Class3 | brand_category_sales_suitelet.js:350-354 | class_3 exists only when class_2 does. |
| Taxonomy.SqlText | brand_category_sales_suitelet.js:348 | The database's reading of a text: NULL exactly when it is empty, otherwise the text itself. |
| Taxonomy.SqlOptText | brand_category_sales_suitelet.js:353 | A nullable text is NULL when it is missing or empty, otherwise it is kept. |
| Taxonomy.Decompose | brand_category_sales_suitelet.js:336-354 | class_1 is NULL exactly when the collapsed text is empty or starts with a hyphen. class_1 and class_2 never hold a hyphen, and class_3 is present only when the text has a second hyphen. |
| Taxonomy.SplitReassembles | brand_category_sales_suitelet.js:336-354 | With two or more hyphens, class_1-class_2-class_3 rebuilds the collapsed text. With one hyphen, class_1-class_2 rebuilds it; with none, class_1 alone is the text. class_3 is NULL only when the text has fewer than two hyphens. |
| Taxonomy.SplitAtTwo | brand_category_sales_suitelet.js:341-354 | With two hyphens, class_3 is present and class_1-class_2-class_3 is the collapsed text. |
| Taxonomy.SplitAtOne | brand_category_sales_suitelet.js:341-349 | With exactly one hyphen, class_3 is NULL, class_1-class_2 is the collapsed text, and no hyphen follows the first. |
| Taxonomy.FormatDisplayText | brand_category_sales_suitelet.js:900-903 | Only an empty value displays as empty, and a value starting "BuiltIn" is shown starting "Built-In". |
| Taxonomy.DisplayIsRewrite | brand_category_sales_suitelet.js:900-903 | The early return for "" and "-" changes nothing: the display form is always "every BuiltIn becomes Built-In", and a text without BuiltIn is shown unchanged. |
| Taxonomy.CollapseKeepsLeadingHyphen | brand_category_sales_suitelet.js:337 | Collapsing a text that starts with a hyphen keeps the hyphen and collapses the rest. |
| Taxonomy.CollapseLeavesNoBuiltIn | brand_category_sales_suitelet.js:337 | `Collapse`: no "Built-In" is left in the collapsed text, so no hyphen of it can be read as a level delimiter. The rewrite never forms a new occurrence from the text around a replaced one. |
| Taxonomy.BuiltInCategory | brand_category_sales_suitelet.js:337-340 | Any raw value beginning "Built-In-" gets the category "BuiltIn", and `formatDisplayText` shows it as "Built-In", not "Built". |
| SummaryQuery.Keep | brand_category_sales_suitelet.js:368 | Exactly the lines whose classification text is present and non-empty are kept. |
| SummaryQuery.KeepSum | brand_category_sales_suitelet.js:368 | `Keep` keeps every kept line as often as it occurs and nothing else: any sum over the kept lines is the sum over all lines with the dropped ones counting zero. |
| SummaryQuery.BrandCase | brand_category_sales_suitelet.js:355-358 | A brand column takes a line's amount exactly when its brand equals the column's id. A NULL brand makes the comparison unknown, so it takes 0. |
| SummaryQuery.OtherCase | brand_category_sales_suitelet.js:359 | The other-brands column takes a line's amount exactly when its brand is present and is none of 48, 26, 15, 43. A NULL brand takes 0 here too. |
| SummaryQuery.LineBucket | brand_category_sales_suitelet.js:355-360 | A line's sales land in at most one of the five brand columns, and in none when its brand is NULL. total_amount equals the five brand columns plus the NULL-brand part. |
| SummaryQuery.GroupReconciles | brand_category_sales_suitelet.js:355-360 | For every group, total = profile + ge + cafe + monogram + other + (sales of the lines whose brand is NULL). |
| SummaryQuery.QueryRowsAreGroups | brand_category_sales_suitelet.js:384-387 | `QueryRows`: there is one result row per distinct classification path of the kept lines, with no path twice. Each row's amount column is its CASE summed over exactly the lines of that path. |
| SummaryQuery.GroupRowColumns | brand_category_sales_suitelet.js:355-362 | Helper that reads `GroupRow` column by column: a group's row carries the group's three classification columns, and each amount column is that column's CASE summed over the group's lines. |
| SummaryQuery.GroupsPartitionLines | brand_category_sales_suitelet.js:355-362 | Summed over all groups, a column equals its CASE summed over every kept line: no line is lost or counted twice. |
| Sums.Partition | brand_category_sales_suitelet.js:384-387 | Summing per key over a duplicate-free list that covers every key equals the plain sum. |
| Sums.DistinctKeys | brand_category_sales_suitelet.js:384-387 | The group keys are duplicate-free, cover every element's key, and each comes from some element. |
| SummaryData.OrDash | brand_category_sales_suitelet.js:401 | The result is never empty. It is the value when present and non-empty, and "-" otherwise. |
| SummaryData.ToRecordAmount | brand_category_sales_suitelet.js:424-432 | Helper that reads `ToRecord` column by column, with `NumberOrZero` for `parseFloat(…) \|\| 0`: a record's category is the row's class_1 or "-", and each amount column is the row's column, with a missing value read as 0. |
| SummaryData.ToRecordsIndex | brand_category_sales_suitelet.js:423-435 | `ToRecord` over the rows: the records of the rows are one per row, in order, the i-th converted from the i-th row. |
| SummaryData.Accumulate | brand_category_sales_suitelet.js:416-421 | Every column of the updated entry is the old column plus the record's column. |
| SummaryData.CategorySumAbsent | brand_category_sales_suitelet.js:404-413 | A category with no records so far sums to zero, so a fresh entry starts at zero. |
| SummaryData.AccumulateStep | brand_category_sales_suitelet.js:401-421 | One loop step keeps the dictionary equal to the category totals of the records so far: the same keys and the same per-column sums. |
| SummaryData.GetSummaryData | brand_category_sales_suitelet.js:399-436 | There is one record per query row, in order, each converted with `\|\| '-'` and `\|\| 0`. The dictionary is the category totals of the records (`IsCategoryTotals`): its keys are exactly the records' categories, and each entry's column is that column summed over the records of its category. |
| SummaryTable.BuildSummaryTotals | brand_category_sales_suitelet.js:686-714 | Every column of the total row is that column summed over all rows, including the transaction and line counts. The selected-brands cell is the sum of the four brand totals. |
| SummaryTable.Percent | brand_category_sales_suitelet.js:727 | The result is 0 unless the denominator is positive. Otherwise result × denominator = part × 100, and it lies in [0, 100] when 0 ≤ part ≤ denominator. |
| SummaryTable.ColumnPercent | brand_category_sales_suitelet.js:726-733 | The result is 0 when the category has no entry or its column total is not positive. Otherwise it is the row's share of the category total, times 100. |
| SummaryTable.SelectedBrandsPercent | brand_category_sales_suitelet.js:731 | The four-brand sum is taken as a share of the category's all-brands total: 0 when that total is not positive or the entry is missing. |
| SummaryTable.CategoryPercentSumShare | brand_category_sales_suitelet.js:727-733 | The percentages of one category's rows add up to the share that the category sum takes of the denominator. |
| SummaryTable.CategoryPercentagesSumTo100 | brand_category_sales_suitelet.js:727-733 | With exact arithmetic, a column's percentages over one category's rows sum to 100 whenever that category's total is positive. |
| SummaryTable.EntriesAreKeySums | brand_category_sales_suitelet.js:416-421 | Adding up dictionary entries is adding up the records of their categories. |
| SummaryTable.CategoryTotalsReconcile | brand_category_sales_suitelet.js:686-714 | Summing a column over all dictionary entries, in any order with each key once, gives that column summed over all rows. |
| SummaryView.RecordSumsAreGroupSums | brand_category_sales_suitelet.js:423-435 | Summing a column over the records is summing, per group, the column's CASE over the lines. |
| SummaryView.SummaryReconcilesWithLines | brand_category_sales_suitelet.js:355-436 | For every column, the records built from the query's rows sum to that column's CASE over all kept lines. In particular, the grand total is the negated net amount of every line. |
| SummaryView.BuildSummaryView | brand_category_sales_suitelet.js:241-255 | The records, dictionary and total row satisfy all of the above together. The total row agrees with the records, with the sum of the dictionary's entries, and with the input lines: each column is its CASE summed over every line, a line with no classification text counting zero. |
| Filters.UnquoteSqlQuote | brand_category_sales_suitelet.js:482 | `SqlQuote`: doubling every quote gives a well-formed literal body, and the database reads it back as exactly the original value. |
| Filters.UpperAscii | brand_category_sales_suitelet.js:494 | Upper-casing keeps the length, maps a-z to A-Z and keeps every other character. |
| Filters.UpperSqlQuote | brand_category_sales_suitelet.js:494 | Doubling the quotes and then upper-casing equals upper-casing and then doubling. |
| Filters.ClassCondition | brand_category_sales_suitelet.js:481-489 | A level condition is added exactly when the value is present, non-empty and not "-". Its literal reads back as the value. |
| Filters.BrandCondition | brand_category_sales_suitelet.js:490-492 | The brand condition is added exactly when the value is present, non-empty and not "-". Its literal reads back as the value. |
| Filters.LocationCondition | brand_category_sales_suitelet.js:493-495 | The location condition is added exactly when the value is present and non-empty ("-" included). Its pattern reads back as the upper-cased value. |
| Filters.Present | brand_category_sales_suitelet.js:480-495 | An optional condition becomes a list holding exactly that condition, or nothing. |
| Filters.Conditions | brand_category_sales_suitelet.js:480-495 | A condition is in the list exactly when it is the condition of one of the five filters (three levels, brand, location) and that filter selects something; a filter that selects nothing adds nothing. |
| Filters.ConditionsSelected | brand_category_sales_suitelet.js:480-495 | Corollary: each selecting level filter contributes its condition, and with no filter active the list is empty. |
| Filters.ConditionsReadBack | brand_category_sales_suitelet.js:480-495 | Every condition in the list reads back as exactly the value of the filter it came from. |
| Filters.DrillDownSelectsGroup | brand_category_sales_suitelet.js:718-720 | Passing a record's stored class_1 or class_2 value (`value \|\| '-'`, before `formatDisplayText`) back as a filter selects exactly that value, and a NULL level ("-") selects nothing. The same holds for class_3 unless it is itself "-". |
| Filters.ConfigurationPlaceholderClash | brand_category_sales_suitelet.js:487 | Raw "A-B--" has class_3 "-", and drilling into it adds no class_3 condition. |
| Filters.DateConditionsAsWritten | brand_category_sales_suitelet.js:502-507 | There is one condition per non-empty date. A start date gives the first condition, `>=` its text verbatim; an end date gives the last, `<=` its text verbatim. |
| Filters.DateLiteralAsWrittenBreaksOut | brand_category_sales_suitelet.js:502-507 | A start date holding a quote yields a literal body that is not well formed, so the rest of the value is read as SQL. |
| Filters.UnquoteMalformedTail | brand_category_sales_suitelet.js:503 | A malformed tail after quote-free text makes the whole body malformed. |
| Filters.DateConditions | brand_category_sales_suitelet.js:502-507 | The corrected date conditions: there is one condition per non-empty date. A `>=` condition is present exactly when the start date is non-empty and comes first; a `<=` condition is present exactly when the end date is non-empty and comes last. Each literal reads back as exactly its date. |
| Html.EscapeChar | brand_category_sales_suitelet.js:912-918 | Each of the five special characters becomes a reference of the form `&…;`. Every other character is copied. No `<`, `>`, `"` or `'` remains. |
| Html.Escape | brand_category_sales_suitelet.js:919 | The output holds no `<`, `>`, `"` or `'`, and is never shorter than the input. |
| Html.EscapeHtml | brand_category_sales_suitelet.js:910-920 | A missing or empty text gives "", and no output holds `<`, `>`, `"` or `'`. |
| Html.UnescapeStep | brand_category_sales_suitelet.js:912-918 | Each replacement reads back as its own character, whatever follows it. |
| Html.UnescapeEscape | brand_category_sales_suitelet.js:910-920 | Replacing the five references back recovers the input. |
| Html.EscapePlain | brand_category_sales_suitelet.js:919 | Text with none of the five characters is copied unchanged. |
| Html.EscapeAppend | brand_category_sales_suitelet.js:919 | Characters are escaped one at a time, independently of their neighbours. |
| Currency.Digits | brand_category_sales_suitelet.js:869 | The whole part's digits are non-empty, are all digits, and have no leading zero (a positive number does not start with "0"). |
| Currency.ValueOfDigits | brand_category_sales_suitelet.js:869 | The digits denote the number they were made from. |
| Currency.TwoDigits | brand_category_sales_suitelet.js:869 | The two decimals are two digits that denote the cents. |
| Currency.Unsigned | brand_category_sales_suitelet.js:868-869 | The rendering is "$", the whole units grouped by thousands, ".", and two digits that denote the cents. |
| Currency.GroupWellGrouped | brand_category_sales_suitelet.js:869 | `Group` on a number's digits: the first block holds one to three digits, and every comma is followed by exactly three digits and then the next comma or the end. |
| Currency.RemoveCommasGroup | brand_category_sales_suitelet.js:869 | Removing the thousands separators recovers the digits that were grouped. |
| Currency.FormatCurrency | brand_category_sales_suitelet.js:866-874 | A missing amount gives "$0.00". A negative amount is in parentheses when the sign is preserved; otherwise the absolute value is shown bare. |
| Currency.ParseUnsignedRoundTrip | brand_category_sales_suitelet.js:868-869 | "$" + grouped whole part + "." + two decimals reads back as the amount, by a reader that accepts commas only at thousands. |
| Currency.FormatCurrencyRoundTrip | brand_category_sales_suitelet.js:866-874 | With the sign preserved, the rendering reads back as exactly the amount, negative ones included. |
| Currency.FormatCurrencyDropsSign | brand_category_sales_suitelet.js:866-874 | Without it, as in the summary table, the rendering reads back as the absolute value. |
| Currency.MissingIsZero | brand_category_sales_suitelet.js:867 | A missing amount renders exactly as zero does. |

## Left out

- Request handling, the form, URL resolution and the script runtime (`onRequest`, `handleGet`, `url`, `runtime`) are platform calls.
- Running the queries and logging are foreign I/O. The summary query's result is modelled by what it computes (`SummaryQuery.QueryRows`) over the transaction lines given as input.
- The `try/catch` blocks that swallow query errors and return empty results are not modelled; there are no exceptions.
- The transaction-type, date and selling-location predicates of the summary query's WHERE clause are taken as already applied to the input lines; only `custitem_ns_temp_prod IS NOT NULL` is modelled. The text of the date and selling-location predicates is modelled in `Filters` (`DateConditions`, `LocationCondition`); the transaction-type predicate `t.type IN ('CustInvc', 'CustCred')` is not modelled.
- The ORDER BY of the summary query is not modelled, because its collation is the database's. `QueryRows` lists groups in order of first appearance, and every property of `getSummaryData` and `buildSummaryTable` holds for any row order.
- The detail query's rows, `getDetailData`'s result mapping and `buildDetailTable` are not modelled: they are presentation built on the same decomposition and filters.
- The HTML markup, the styles and all client-side JavaScript (filtering, sorting, export, recomputed percentages) are presentation only.
- `formatDate` is not modelled; it depends on the JavaScript `Date` object.
- `encodeURIComponent` and the drill-down URL text are library calls. The drill-down is modelled as each record's stored value (`value || '-'`, before `formatDisplayText`) passed back as a filter.
- Floating point is not modelled. Amounts are exact cents, and percentages are exact reals without `toFixed(2)` rounding.
- SummaryTable.CategoryPercentagesSumTo100: with floating-point rounding the displayed percentages need not sum to exactly 100.00; the lemma is stated for exact arithmetic.
- Filters.UpperAscii: `toUpperCase` is modelled for ASCII letters only. Other Unicode case mappings are not modelled.
- Currency.FormatCurrency: the amount is exact cents. The JavaScript number's `toFixed(2)` rounding of fractions of a cent is not modelled.
- SummaryQuery.Line: a NULL net amount or quantity is read as 0. SQL `SUM` skips NULLs, and an all-NULL group's NULL sum becomes 0 through `parseFloat(…) || 0`, so the sums agree. Quantities are whole units. The line count is `parseInt` of a summed quantity, which truncates a fractional sum toward zero; that truncation is not modelled.
- SummaryData.NumberOrZero: a `NaN` from `parseFloat` is modelled as a missing value (None). Partial numeric prefixes such as "12abc" are not modelled.
- JavaScript dictionary keys that clash with object prototype properties are not modelled.

## Findings

| source | as written | input that shows it | evidently intended | confidence | as-written member | corrected member |
|---|---|---|---|---|---|---|
| brand_category_sales_suitelet.js:502-507 | The start and end dates go into `TO_DATE('…')` verbatim, while every other filter value has its quotes doubled. The summary query does the same at lines 371-376. | startDate = `2025-01-01' OR '1'='1` | The dates' quotes are doubled like every other filter, so each literal reads back as the date text. | not executed | Filters.DateLiteralAsWrittenBreaksOut | Filters.DateConditions |

A related observation, which is not a finding because it follows from the source's own placeholder: the drill-down passes each level back as the record's stored value (`value || '-'`, before `formatDisplayText`), and "-" adds no condition. So any level that is NULL widens the detail view. Drilling into a record such as ("Ranges", "-", "-") lists every line of the category "Ranges" that passes the other filters, not only the lines whose sub-category and configuration are NULL (`Filters.DrillDownSelectsGroup`). The same happens when class_3 is itself the text "-" (raw value `A-B--`): its records show "-", and drilling into them shows every configuration of that sub-category (`Filters.ConfigurationPlaceholderClash`).
