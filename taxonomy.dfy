/**
 * Decomposition of the item field `custitem_ns_temp_prod` into the
 * three-level classification (class_1, class_2, class_3) computed by the
 * summary and detail queries, and its reversal for display.
 *
 * The collision phrase "Built-In" is first rewritten to "BuiltIn" so that its
 * hyphen is not taken for a level delimiter; the text is then split at its
 * first two hyphens. The database treats the empty string as NULL, so an
 * empty piece comes back as NULL (`SqlText`).
 */
module Taxonomy {
  import opened Wrappers
  import opened Text

  const Delimiter: char := '-'

  /** `REPLACE(i.custitem_ns_temp_prod, 'Built-In', 'BuiltIn')`. */
  function Collapse(raw: string): string
  {
    ReplaceAll(raw, "Built-In", "BuiltIn")
  }

  /** Collapsed text that starts with a word holding no "B" comes from raw text that starts with it. */
  lemma {:induction false} CollapsedPrefix(s: string, w: string)
    requires 'B' !in w && w <= Collapse(s)
    ensures w <= s
  {
    if w != [] {
      assert Collapse(s) != [];
      assert Collapse(s)[0] == w[0] && w[0] != 'B';
      assert !("Built-In" <= s);
      assert Collapse(s) == [s[0]] + Collapse(s[1..]);
      assert w[1..] <= Collapse(s[1..]);
      CollapsedPrefix(s[1..], w[1..]);
    }
  }

  /** "BuiltIn" in front of text without "Built-In" does not create one. */
  lemma ReplacedFront(rest: string)
    requires forall i: nat :: !OccursAt("Built-In", rest, i)
    ensures forall i: nat :: !OccursAt("Built-In", "BuiltIn" + rest, i)
  {
    var out := "BuiltIn" + rest;
    forall i: nat ensures !OccursAt("Built-In", out, i) {
      if 7 <= i <= |out| {
        assert out[i..] == rest[i - 7..];
        assert !OccursAt("Built-In", rest, i - 7);
      } else if i == 0 {
        assert out[5] == 'I';
      } else if i < 7 {
        assert out[i] != 'B';
      }
    }
  }

  /**
   * A character copied in front of collapsed text without "Built-In" does
   * not create one, unless the raw text started with "Built-In".
   */
  lemma CopiedFront(raw: string)
    requires raw != [] && !("Built-In" <= raw)
    requires forall i: nat :: !OccursAt("Built-In", Collapse(raw[1..]), i)
    ensures forall i: nat :: !OccursAt("Built-In", [raw[0]] + Collapse(raw[1..]), i)
  {
    var rest := Collapse(raw[1..]);
    var out := [raw[0]] + rest;
    forall i: nat ensures !OccursAt("Built-In", out, i) {
      if 1 <= i <= |out| {
        assert out[i..] == rest[i - 1..];
        assert !OccursAt("Built-In", rest, i - 1);
      } else if i == 0 {
        assert out[0..] == out && out[1..] == rest;
        if "uilt-In" <= rest {
          CollapsedPrefix(raw[1..], "uilt-In");
          assert raw[..8] == [raw[0]] + raw[1..][..7];
        } else if |out| >= 8 {
          assert out[1..8] == rest[..7];
        }
      }
    }
  }

  /**
   * No "Built-In" is left after the collapse, so none of its hyphens can be
   * taken for a level delimiter: the rewrite never creates a new occurrence
   * out of the text around a replaced one.
   */
  lemma {:induction false} CollapseLeavesNoBuiltIn(raw: string)
    ensures forall i: nat :: !OccursAt("Built-In", Collapse(raw), i)
  {
    if raw != [] {
      if "Built-In" <= raw {
        CollapseLeavesNoBuiltIn(raw[8..]);
        ReplacedFront(Collapse(raw[8..]));
        assert Collapse(raw) == "BuiltIn" + Collapse(raw[8..]);
      } else {
        CollapseLeavesNoBuiltIn(raw[1..]);
        CopiedFront(raw);
        assert Collapse(raw) == [raw[0]] + Collapse(raw[1..]);
      }
    }
  }

  /** 0-based position of the first hyphen: `INSTR(x, '-') - 1`. */
  function FirstHyphen(x: string): Option<nat>
  {
    IndexOf(x, Delimiter)
  }

  /** 0-based position of the second hyphen: `INSTR(x, '-', 1, 2) - 1`. */
  function SecondHyphen(x: string): (r: Option<nat>)
    ensures r.Some? ==> FirstHyphen(x).Some? && FirstHyphen(x).value < r.value < |x|
    ensures r.Some? ==> x[r.value] == Delimiter && Delimiter !in x[FirstHyphen(x).value + 1..r.value]
    ensures r.None? && FirstHyphen(x).Some? ==> Delimiter !in x[FirstHyphen(x).value + 1..]
  {
    match FirstHyphen(x)
    case None => None
    case Some(p) =>
      match IndexOf(x[p + 1..], Delimiter)
      case None => None
      case Some(q) =>
        assert x[p + 1..][..q] == x[p + 1..p + 1 + q];
        Some(p + 1 + q)
  }

  /** The CASE expression `AS class_1`: text before the first hyphen, else all of it. */
  function Class1(x: string): (r: string)
    ensures Delimiter !in r
    ensures Delimiter !in x ==> r == x
    ensures Delimiter in x ==> r + [Delimiter] <= x
  {
    match FirstHyphen(x)
    case Some(p) =>
      assert x[..p] + [Delimiter] == x[..p + 1];
      x[..p]
    case None => x
  }

  /**
   * The CASE expression `AS class_2`: text between the first and second
   * hyphen, else everything after the only hyphen, else NULL.
   */
  function Class2(x: string): (r: Option<string>)
    ensures r.None? <==> Delimiter !in x
    ensures r.Some? ==> Delimiter !in r.value
    ensures r.Some? ==> Class1(x) + [Delimiter] + r.value <= x
  {
    match SecondHyphen(x)
    case Some(q) =>
      var p := FirstHyphen(x).value;
      assert x[..p] + [Delimiter] + x[p + 1..q] == x[..q];
      Some(x[p + 1..q])
    case None =>
      match FirstHyphen(x)
      case Some(p) =>
        assert x[..p] + [Delimiter] + x[p + 1..] == x;
        Some(x[p + 1..])
      case None => None
  }

  /** The CASE expression `AS class_3`: everything after the second hyphen, else NULL. */
  function Class3(x: string): (r: Option<string>)
    ensures r.Some? ==> Class2(x).Some?
  {
    match SecondHyphen(x)
    case Some(q) => Some(x[q + 1..])
    case None => None
  }

  /** The database's reading of a text value: the empty string is NULL. */
  function SqlText(s: string): (r: Option<string>)
    ensures r.None? <==> s == []
    ensures r.Some? ==> r.value == s
  {
    if s == [] then None else Some(s)
  }

  function SqlOptText(o: Option<string>): (r: Option<string>)
    ensures r.None? <==> o.None? || o.value == []
    ensures r.Some? ==> r.value == o.value
  {
    match o
    case None => None
    case Some(s) => SqlText(s)
  }

  /** The grouping key of the summary query: the three classification columns. */
  datatype Path = Path(class1: Option<string>, class2: Option<string>, class3: Option<string>)

  /**
   * The three classification columns of one item, as the query computes
   * them: class_1 is NULL exactly when the collapsed text is empty or starts
   * with a hyphen, class_1 and class_2 never hold a hyphen, and class_3 is
   * only present after a second hyphen.
   */
  function Decompose(raw: string): (r: Path)
    ensures r.class1.None? <==> Collapse(raw) == [] || Collapse(raw)[0] == Delimiter
    ensures r.class1.Some? ==> Delimiter !in r.class1.value
    ensures r.class2.Some? ==> Delimiter !in r.class2.value
    ensures r.class3.Some? ==> SecondHyphen(Collapse(raw)).Some?
  {
    var x := Collapse(raw);
    Path(SqlText(Class1(x)), SqlOptText(Class2(x)), SqlOptText(Class3(x)))
  }

  /** The three pieces put back together with the delimiters. */
  function Rejoin(c1: string, c2: string, c3: string): string
  {
    c1 + [Delimiter] + c2 + [Delimiter] + c3
  }

  /**
   * The split at hyphens reassembles the collapsed text: with two or more
   * hyphens class_1-class_2-class_3 is the whole text, with exactly one
   * class_1-class_2 is, and with none class_1 is; class_1 and class_2 never
   * hold a hyphen, so class_3 is NULL exactly when fewer than two exist.
   */
  lemma {:induction false} SplitReassembles(x: string)
    ensures Class3(x).Some? ==> Rejoin(Class1(x), Class2(x).value, Class3(x).value) == x
    ensures Class3(x).None? && Class2(x).Some? ==> Class1(x) + [Delimiter] + Class2(x).value == x
    ensures Class2(x).None? ==> Class1(x) == x
    ensures Class3(x).None? ==> forall i, j :: 0 <= i < j < |x| && x[i] == Delimiter ==> x[j] != Delimiter
  {
    if SecondHyphen(x).Some? {
      SplitAtTwo(x);
    } else if FirstHyphen(x).Some? {
      SplitAtOne(x);
    }
  }

  lemma SplitAtTwo(x: string)
    requires SecondHyphen(x).Some?
    ensures Class3(x).Some? && Rejoin(Class1(x), Class2(x).value, Class3(x).value) == x
  {
    var p, q := FirstHyphen(x).value, SecondHyphen(x).value;
    ClassesAtTwo(x);
    Rejoined(x, p, q);
  }

  /** With two hyphens, the three pieces are the text between them. */
  lemma ClassesAtTwo(x: string)
    requires SecondHyphen(x).Some?
    ensures var p, q := FirstHyphen(x).value, SecondHyphen(x).value;
            && Class1(x) == x[..p] && Class2(x) == Some(x[p + 1..q]) && Class3(x) == Some(x[q + 1..])
  {
  }

  lemma Rejoined(x: string, p: nat, q: nat)
    requires p < q < |x| && x[p] == Delimiter && x[q] == Delimiter
    ensures Rejoin(x[..p], x[p + 1..q], x[q + 1..]) == x
  {
    assert x[..p] + [Delimiter] + x[p + 1..q] == x[..q];
    assert x[..q] + [Delimiter] + x[q + 1..] == x;
  }

  lemma SplitAtOne(x: string)
    requires SecondHyphen(x).None? && FirstHyphen(x).Some?
    ensures Class3(x).None? && Class2(x).Some? && Class1(x) + [Delimiter] + Class2(x).value == x
    ensures forall i, j :: 0 <= i < j < |x| && x[i] == Delimiter ==> x[j] != Delimiter
  {
    var p := FirstHyphen(x).value;
    assert Class1(x) == x[..p] && Class2(x) == Some(x[p + 1..]);
    assert x[..p] + [Delimiter] + x[p + 1..] == x;
    forall i, j | 0 <= i < j < |x| && x[i] == Delimiter ensures x[j] != Delimiter {
      assert x[p + 1..][j - p - 1] == x[j];
    }
  }

  /**
   * The display form of a classification value: `formatDisplayText`. Only
   * the empty text displays as empty, and a value starting "BuiltIn" is
   * shown starting "Built-In".
   */
  function FormatDisplayText(text: string): (r: string)
    ensures r == [] <==> text == []
    ensures "BuiltIn" <= text ==> "Built-In" <= r
  {
    if text == [] || text == "-" then text
    else ReplaceAll(text, "BuiltIn", "Built-In")
  }

  /**
   * The early return of `formatDisplayText` for "" and "-" changes nothing:
   * the display form is always the plain rewrite, and text that holds no
   * "BuiltIn" (the "-" placeholder among it) is shown as it is.
   */
  lemma {:induction false} DisplayIsRewrite(text: string)
    ensures FormatDisplayText(text) == ReplaceAll(text, "BuiltIn", "Built-In")
    ensures (forall i: nat :: !OccursAt("BuiltIn", text, i)) ==> FormatDisplayText(text) == text
  {
    if text == "-" {
      forall i: nat ensures !OccursAt("BuiltIn", text, i) {
        assert i <= |text| ==> |text[i..]| < |"BuiltIn"|;
      }
      ReplaceAllAbsent(text, "BuiltIn", "Built-In");
    }
    if forall i: nat :: !OccursAt("BuiltIn", text, i) {
      ReplaceAllAbsent(text, "BuiltIn", "Built-In");
    }
  }

  /** Collapsing never touches a text that starts with a hyphen before its first character. */
  lemma {:induction false} CollapseKeepsLeadingHyphen(rest: string)
    ensures Collapse([Delimiter] + rest) == [Delimiter] + Collapse(rest)
  {
    var s := [Delimiter] + rest;
    assert !("Built-In" <= s) by { assert s[0] != 'B'; }
    assert s[1..] == rest;
  }

  /**
   * A raw value beginning "Built-In-" is grouped under the category
   * "BuiltIn", which is displayed as "Built-In" and not as "Built".
   */
  lemma {:induction false} BuiltInCategory(rest: string)
    ensures Decompose("Built-In-" + rest).class1 == Some("BuiltIn")
    ensures FormatDisplayText(Decompose("Built-In-" + rest).class1.value) == "Built-In"
  {
    var raw := "Built-In-" + rest;
    assert "Built-In" <= raw;
    assert raw[8..] == [Delimiter] + rest;
    CollapseKeepsLeadingHyphen(rest);
    var x := Collapse(raw);
    assert x == "BuiltIn" + [Delimiter] + Collapse(rest);
    assert Delimiter !in "BuiltIn";
    assert x[7] == Delimiter;
    assert Class1(x) == "BuiltIn" by {
      var p := FirstHyphen(x).value;
      assert p == 7;
    }
    var t := "BuiltIn";
    assert "BuiltIn" <= t;
    assert t[7..] == [];
  }
}
