/**
 * The WHERE conditions the detail query adds for the drill-down filters:
 * a classification level, the brand name, the selling location and the date
 * range. A filter value is embedded in a SQL string literal with every
 * single quote doubled.
 */
module Filters {
  import opened Wrappers
  import opened Text
  import opened Taxonomy
  import opened SummaryData

  /** `value.replace(/'/g, "''")`. */
  function SqlQuote(s: string): string
  {
    ReplaceAll(s, "'", "''")
  }

  /**
   * What the database reads back from the body of a string literal: `''`
   * stands for one quote. A lone quote would end the literal early, so a
   * body holding one is malformed (None).
   */
  function Unquote(body: string): Option<string>
  {
    if body == [] then Some([])
    else if body[0] == '\'' then
      if |body| >= 2 && body[1] == '\'' then
        match Unquote(body[2..])
        case Some(t) => Some(['\''] + t)
        case None => None
      else None
    else
      match Unquote(body[1..])
      case Some(t) => Some([body[0]] + t)
      case None => None
  }

  /** Doubling the quotes gives a well-formed literal body that reads back as the original value. */
  lemma {:induction false} UnquoteSqlQuote(s: string)
    ensures Unquote(SqlQuote(s)) == Some(s)
  {
    if s != [] {
      UnquoteSqlQuote(s[1..]);
      var t := SqlQuote(s[1..]);
      if s[0] == '\'' {
        assert "'" <= s;
        assert SqlQuote(s) == "''" + t;
        assert ("''" + t)[2..] == t;
        assert s == ['\''] + s[1..];
      } else {
        assert !("'" <= s);
        assert SqlQuote(s) == [s[0]] + t;
        assert ([s[0]] + t)[0] == s[0] && ([s[0]] + t)[1..] == t;
        assert s == [s[0]] + s[1..];
      }
    }
  }

  lemma UnquoteSqlQuoteAll()
    ensures forall s :: Unquote(SqlQuote(s)) == Some(s)
  {
    forall s ensures Unquote(SqlQuote(s)) == Some(s) {
      UnquoteSqlQuote(s);
    }
  }

  /** ASCII upper-casing of the location filter (`toUpperCase()`). */
  function UpperAscii(s: string): (r: string)
    ensures |r| == |s|
    ensures forall i :: 0 <= i < |s| ==> (if 'a' <= s[i] <= 'z' then r[i] == (s[i] as int - 32) as char else r[i] == s[i])
  {
    if s == [] then [] else [UpperChar(s[0])] + UpperAscii(s[1..])
  }

  function UpperChar(c: char): char
  {
    if 'a' <= c <= 'z' then (c as int - 32) as char else c
  }

  /** Upper-casing after doubling the quotes is doubling the quotes of the upper-cased value. */
  lemma {:induction false} UpperSqlQuote(s: string)
    ensures UpperAscii(SqlQuote(s)) == SqlQuote(UpperAscii(s))
  {
    if s != [] {
      UpperSqlQuote(s[1..]);
      var u := UpperAscii(s);
      assert u[0] == UpperChar(s[0]) && u[1..] == UpperAscii(s[1..]);
      if s[0] == '\'' {
        assert "'" <= s && "'" <= u;
        assert SqlQuote(s) == "''" + SqlQuote(s[1..]);
        assert UpperAscii("''" + SqlQuote(s[1..])) == "''" + UpperAscii(SqlQuote(s[1..])) by {
          var w := "''" + SqlQuote(s[1..]);
          assert w[1..] == "'" + SqlQuote(s[1..]);
          assert w[1..][1..] == SqlQuote(s[1..]);
        }
      } else {
        assert !("'" <= s) && !("'" <= u);
        assert SqlQuote(s) == [s[0]] + SqlQuote(s[1..]);
        assert ([s[0]] + SqlQuote(s[1..]))[1..] == SqlQuote(s[1..]);
      }
    }
  }

  /** The three classification levels a drill-down can filter on. */
  datatype Level = Category | SubCategory | Configuration

  /**
   * A condition of the detail query's WHERE clause; each literal is the text
   * placed between the quotes.
   */
  datatype Condition =
    | ClassIs(level: Level, literal: string)   // <CASE expression of the level> = '<literal>'
    | BrandNameIs(literal: string)             // brand.name = '<literal>'
    | LocationLike(pattern: string)            // UPPER(dept.name) LIKE '%<pattern>%'

  /** `value && value !== '-'`: present, non-empty and not the "-" placeholder. */
  predicate Selects(value: Option<string>)
  {
    value.Some? && value.value != [] && value.value != "-"
  }

  /** The condition for one classification level, if its filter selects anything. */
  function ClassCondition(level: Level, value: Option<string>): (r: Option<Condition>)
    ensures r.None? <==> !Selects(value)
    ensures r.Some? ==> r.value.ClassIs? && r.value.level == level
    ensures r.Some? ==> Unquote(r.value.literal) == Some(value.value)
  {
    if Selects(value) then
      UnquoteSqlQuote(value.value);
      Some(ClassIs(level, SqlQuote(value.value)))
    else None
  }

  /** The brand-name condition, if the brand filter selects anything. */
  function BrandCondition(value: Option<string>): (r: Option<Condition>)
    ensures r.None? <==> !Selects(value)
    ensures r.Some? ==> r.value.BrandNameIs? && Unquote(r.value.literal) == Some(value.value)
  {
    if Selects(value) then
      UnquoteSqlQuote(value.value);
      Some(BrandNameIs(SqlQuote(value.value)))
    else None
  }

  /**
   * The selling-location condition, if the filter is non-empty ("-" is not
   * special here): `UPPER(dept.name) LIKE '%<value>%'` with the value upper-cased, so a
   * `%` or `_` in the value acts as a LIKE wildcard.
   */
  function LocationCondition(value: Option<string>): (r: Option<Condition>)
    ensures r.None? <==> value.None? || value.value == []
    ensures r.Some? ==> r.value.LocationLike? && Unquote(r.value.pattern) == Some(UpperAscii(value.value))
  {
    if value.Some? && value.value != [] then
      UpperSqlQuote(value.value);
      UnquoteSqlQuote(UpperAscii(value.value));
      Some(LocationLike(UpperAscii(SqlQuote(value.value))))
    else None
  }

  function Present(c: Option<Condition>): (r: seq<Condition>)
    ensures forall x :: x in r <==> c == Some(x)
  {
    match c
    case Some(x) => [x]
    case None => []
  }

  /**
   * The `conditions` list of the detail query: one condition per filter
   * that selects something, in the order class 1, class 2, class 3, brand,
   * location; each reads back as exactly the filter's value.
   */
  function Conditions(class1: Option<string>, class2: Option<string>, class3: Option<string>,
                      brand: Option<string>, location: Option<string>): (r: seq<Condition>)
    ensures forall c :: c in r <==>
              Some(c) in [ClassCondition(Category, class1), ClassCondition(SubCategory, class2),
                          ClassCondition(Configuration, class3), BrandCondition(brand),
                          LocationCondition(location)]
  {
    var c1 := Present(ClassCondition(Category, class1));
    var c2 := Present(ClassCondition(SubCategory, class2));
    var c3 := Present(ClassCondition(Configuration, class3));
    var b := Present(BrandCondition(brand));
    var l := Present(LocationCondition(location));
    c1 + c2 + c3 + b + l
  }

  /** Each selecting level filter contributes its condition, and with no filter active the list is empty. */
  lemma ConditionsSelected(class1: Option<string>, class2: Option<string>, class3: Option<string>,
                           brand: Option<string>, location: Option<string>)
    ensures var r := Conditions(class1, class2, class3, brand, location);
            && (Selects(class1) ==> ClassIs(Category, SqlQuote(class1.value)) in r)
            && (Selects(class2) ==> ClassIs(SubCategory, SqlQuote(class2.value)) in r)
            && (Selects(class3) ==> ClassIs(Configuration, SqlQuote(class3.value)) in r)
            && ((!Selects(class1) && !Selects(class2) && !Selects(class3) && !Selects(brand)
                 && (location.None? || location.value == [])) ==> r == [])
  {
    var r := Conditions(class1, class2, class3, brand, location);
    if r != [] {
      assert r[0] in r;
    }
  }

  /**
   * Whether condition `c` reads back as exactly the value of the filter it
   * belongs to (a location pattern as the upper-cased value).
   */
  predicate ReadsBack(c: Condition, class1: Option<string>, class2: Option<string>, class3: Option<string>,
                      brand: Option<string>, location: Option<string>)
  {
    match c
    case ClassIs(level, literal) =>
      var v := match level case Category => class1 case SubCategory => class2 case Configuration => class3;
      v.Some? && Unquote(literal) == Some(v.value)
    case BrandNameIs(literal) => brand.Some? && Unquote(literal) == Some(brand.value)
    case LocationLike(pattern) => location.Some? && Unquote(pattern) == Some(UpperAscii(location.value))
  }

  /** Every condition of the list reads back as exactly the value of the filter it came from. */
  lemma ConditionsReadBack(class1: Option<string>, class2: Option<string>, class3: Option<string>,
                           brand: Option<string>, location: Option<string>)
    ensures forall c :: c in Conditions(class1, class2, class3, brand, location) ==>
              ReadsBack(c, class1, class2, class3, brand, location)
  {
    var c1 := Present(ClassCondition(Category, class1));
    var c2 := Present(ClassCondition(SubCategory, class2));
    var c3 := Present(ClassCondition(Configuration, class3));
    var b := Present(BrandCondition(brand));
    var l := Present(LocationCondition(location));
    var r := c1 + c2 + c3 + b + l;
    assert Conditions(class1, class2, class3, brand, location) == r;
    forall c | c in r ensures ReadsBack(c, class1, class2, class3, brand, location) {
      if c in c1 {
        assert ClassCondition(Category, class1) == Some(c);
      } else if c in c2 {
        assert ClassCondition(SubCategory, class2) == Some(c);
      } else if c in c3 {
        assert ClassCondition(Configuration, class3) == Some(c);
      } else if c in b {
        assert BrandCondition(brand) == Some(c);
      } else {
        assert c in l;
        assert LocationCondition(location) == Some(c);
      }
    }
  }

  /** The classification value of a path at one level. */
  function LevelValue(p: Path, level: Level): Option<string>
  {
    match level
    case Category => p.class1
    case SubCategory => p.class2
    case Configuration => p.class3
  }

  /**
   * Drill-down: a summary record shows each level as `value || '-'`, and
   * that text is passed back as the level's filter. For class_1 and class_2,
   * which never hold a hyphen, this filters on exactly the group's value, and
   * a NULL level ("-") filters on nothing. class_3 behaves the same unless it
   * is itself the text "-" (see `ConfigurationPlaceholderClash`).
   */
  lemma DrillDownSelectsGroup(raw: string, level: Level)
    requires level == Configuration ==> Decompose(raw).class3 != Some("-")
    ensures var v := LevelValue(Decompose(raw), level);
            ClassCondition(level, Some(OrDash(v)))
              == if v.None? then None else Some(ClassIs(level, SqlQuote(v.value)))
  {
    var x := Collapse(raw);
    var v := LevelValue(Decompose(raw), level);
    if v.Some? {
      assert v.value != [];
      if level == Category {
        assert Delimiter !in Class1(x);
        assert v.value[0] != Delimiter;
      } else if level == SubCategory {
        assert Delimiter !in Class2(x).value;
        assert v.value[0] != Delimiter;
      }
    }
  }

  /**
   * A configuration can itself be the text "-" (raw "A-B--"); its records
   * then show "-", and drilling into them adds no class_3 condition at all.
   */
  lemma ConfigurationPlaceholderClash()
    ensures Decompose("A-B--").class3 == Some("-")
    ensures ClassCondition(Configuration, Some(OrDash(Decompose("A-B--").class3))) == None
  {
    var raw := "A-B--";
    forall i: nat ensures !OccursAt("Built-In", raw, i) {
    }
    ReplaceAllAbsent(raw, "Built-In", "BuiltIn");
    assert Collapse(raw) == raw;
    assert FirstHyphen(raw) == Some(1) by {
      assert raw[1] == Delimiter && raw[..1] == "A";
    }
    assert raw[2..] == "B--";
    assert IndexOf(raw[2..], Delimiter) == Some(1) by {
      assert raw[2..][1] == Delimiter && raw[2..][..1] == "B";
    }
    assert SecondHyphen(raw) == Some(3);
    assert raw[4..] == "-";
  }

  /** A condition on the transaction date: `t.trandate >= / <= TO_DATE('<literal>', 'YYYY-MM-DD')`. */
  datatype DateCondition = OnOrAfter(literal: string) | OnOrBefore(literal: string)

  /** `if (startDate)` / `if (endDate)`: present and non-empty. */
  function DateConditionsOf(startDate: Option<string>, endDate: Option<string>,
                            embed: string -> string): seq<DateCondition>
  {
    (if startDate.Some? && startDate.value != [] then [OnOrAfter(embed(startDate.value))] else [])
    + (if endDate.Some? && endDate.value != [] then [OnOrBefore(embed(endDate.value))] else [])
  }

  function Verbatim(s: string): string
  {
    s
  }

  /** The date conditions as the code builds them: the date text goes into the literal unescaped. */
  function DateConditionsAsWritten(startDate: Option<string>, endDate: Option<string>): (r: seq<DateCondition>)
    ensures |r| == (if startDate.Some? && startDate.value != [] then 1 else 0)
                 + (if endDate.Some? && endDate.value != [] then 1 else 0)
    ensures startDate.Some? && startDate.value != [] ==> r[0] == OnOrAfter(startDate.value)
    ensures endDate.Some? && endDate.value != [] ==> r[|r| - 1] == OnOrBefore(endDate.value)
  {
    DateConditionsOf(startDate, endDate, Verbatim)
  }

  /**
   * The date parameters arrive from the request unchecked, and a start date
   * holding a quote ends the literal early: the condition's text is not a
   * well-formed literal body, and the rest of the value is read as SQL.
   */
  lemma DateLiteralAsWrittenBreaksOut()
    ensures var r := DateConditionsAsWritten(Some("2025-01-01' OR '1'='1"), None);
            |r| == 1 && Unquote(r[0].literal) == None
  {
    var head, tail := "2025-01-01", "' OR '1'='1";
    var d := head + tail;
    assert d == "2025-01-01' OR '1'='1";
    assert Unquote(tail) == None by { assert tail[0] == '\'' && tail[1] == ' '; }
    assert '\'' !in head;
    UnquoteMalformedTail(head, tail);
    var r := DateConditionsAsWritten(Some(d), None);
    assert |r| == 1 && r[0] == OnOrAfter(d);
  }

  /** A malformed tail makes the whole body malformed when nothing before it is a quote. */
  lemma {:induction false} UnquoteMalformedTail(head: string, tail: string)
    requires '\'' !in head
    requires Unquote(tail) == None
    ensures Unquote(head + tail) == None
  {
    if head != [] {
      UnquoteMalformedTail(head[1..], tail);
      var body := head + tail;
      assert body[0] == head[0] && body[1..] == head[1..] + tail;
      assert head[0] in head;
      assert body[0] != '\'';
      assert Unquote(body[1..]) == None;
    } else {
      assert head + tail == tail;
    }
  }

  /** The date conditions with the same quote doubling as every other filter. */
  function DateConditions(startDate: Option<string>, endDate: Option<string>): (r: seq<DateCondition>)
    ensures forall c :: c in r && c.OnOrAfter? ==> startDate.Some? && Unquote(c.literal) == Some(startDate.value)
    ensures forall c :: c in r && c.OnOrBefore? ==> endDate.Some? && Unquote(c.literal) == Some(endDate.value)
    ensures |r| == (if startDate.Some? && startDate.value != [] then 1 else 0)
                 + (if endDate.Some? && endDate.value != [] then 1 else 0)
    ensures (startDate.Some? && startDate.value != []) <==> exists c :: c in r && c.OnOrAfter?
    ensures (endDate.Some? && endDate.value != []) <==> exists c :: c in r && c.OnOrBefore?
    ensures startDate.Some? && startDate.value != [] ==> r[0].OnOrAfter?
    ensures endDate.Some? && endDate.value != [] ==> r[|r| - 1].OnOrBefore?
  {
    UnquoteSqlQuoteAll();
    DateConditionsOf(startDate, endDate, SqlQuote)
  }
}
