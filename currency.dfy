/**
 * `formatCurrency`: an amount in cents rendered as `$` followed by the
 * whole units with thousands separators and two decimals; a negative amount
 * is wrapped in parentheses when the sign is preserved and shown as its
 * absolute value otherwise.
 */
module Currency {
  import opened Wrappers

  predicate IsDigit(c: char)
  {
    '0' <= c <= '9'
  }

  predicate AllDigits(s: string)
  {
    forall i :: 0 <= i < |s| ==> IsDigit(s[i])
  }

  function DigitChar(d: nat): (c: char)
    requires d < 10
    ensures IsDigit(c)
  {
    ('0' as int + d) as char
  }

  function DigitValue(c: char): nat
    requires IsDigit(c)
  {
    c as int - '0' as int
  }

  /** The decimal digits of `n`, without leading zeros ("0" for zero). */
  function Digits(n: nat): (s: string)
    ensures s != [] && AllDigits(s) && ',' !in s
    ensures n > 0 ==> s[0] != '0'
  {
    if n < 10 then [DigitChar(n)] else Digits(n / 10) + [DigitChar(n % 10)]
  }

  /** The number a string of decimal digits denotes. */
  function ValueOf(s: string): nat
    requires AllDigits(s)
  {
    if s == [] then 0 else ValueOf(s[..|s| - 1]) * 10 + DigitValue(s[|s| - 1])
  }

  lemma {:induction false} ValueOfDigits(n: nat)
    ensures ValueOf(Digits(n)) == n
  {
    if n >= 10 {
      ValueOfDigits(n / 10);
      var s := Digits(n);
      assert s[..|s| - 1] == Digits(n / 10);
    }
  }

  /** The two decimals of `toFixed(2)`, for a cents part below 100. */
  function TwoDigits(n: nat): (s: string)
    requires n < 100
    ensures |s| == 2 && AllDigits(s) && ValueOf(s) == n
  {
    var s := [DigitChar(n / 10), DigitChar(n % 10)];
    assert s[..1] == [s[0]] && s[..1][..0] == [];
    assert DigitValue(s[0]) == n / 10 && DigitValue(s[1]) == n % 10;
    assert ValueOf(s[..1]) == n / 10;
    assert ValueOf(s) == (n / 10) * 10 + n % 10;
    s
  }

  /**
   * `replace(/\d(?=(\d{3})+\.)/g, '$&,')` on the whole part: a comma after
   * every digit that is followed by a positive multiple of three digits.
   */
  function Group(s: string): string
  {
    if |s| <= 3 then s else Group(s[..|s| - 3]) + "," + s[|s| - 3..]
  }

  /**
   * The shape of a grouped whole part: a leading block of one to three
   * digits, then blocks of a comma followed by exactly three digits.
   */
  predicate WellGrouped(g: string)
  {
    && g != [] && g[0] != ','
    && (forall i :: 0 <= i < |g| && g[i] != ',' ==> IsDigit(g[i]))
    && (|g| > 3 ==> ',' in g[1..4])
    && (forall i :: 0 <= i < |g| && g[i] == ',' ==>
          i + 3 < |g| && g[i + 1] != ',' && g[i + 2] != ',' && g[i + 3] != ','
          && (i + 4 == |g| || g[i + 4] == ','))
  }

  /** A further block of a comma and three digits keeps a grouping well formed. */
  lemma WellGroupedExtend(gh: string, t: string)
    requires WellGrouped(gh) && |t| == 3 && AllDigits(t)
    ensures WellGrouped(gh + "," + t)
  {
    var g := gh + "," + t;
    var n := |gh|;
    assert g[n] == ',';
    forall i | 0 <= i < |g| && g[i] != ','
      ensures IsDigit(g[i])
    {
      if i < n { assert g[i] == gh[i]; } else { assert g[i] == t[i - n - 1]; }
    }
    if n > 3 {
      assert g[1..4] == gh[1..4];
    } else {
      assert g[1..4][n - 1] == ',';
    }
    forall i | 0 <= i < |g| && g[i] == ','
      ensures i + 3 < |g| && g[i + 1] != ',' && g[i + 2] != ',' && g[i + 3] != ','
              && (i + 4 == |g| || g[i + 4] == ',')
    {
      if i < n {
        assert gh[i] == ',';
        if i + 4 < n { assert g[i + 4] == gh[i + 4]; }
        assert g[i + 1] == gh[i + 1] && g[i + 2] == gh[i + 2] && g[i + 3] == gh[i + 3];
      } else {
        assert i == n;
        assert g[n + 1..] == t;
      }
    }
  }

  /** Grouping the digits of a number puts the separators exactly where thousands begin. */
  lemma {:induction false} GroupWellGrouped(s: string)
    requires s != [] && AllDigits(s)
    ensures WellGrouped(Group(s))
  {
    if |s| > 3 {
      var h, t := s[..|s| - 3], s[|s| - 3..];
      GroupWellGrouped(h);
      WellGroupedExtend(Group(h), t);
    } else {
      assert forall i :: 0 <= i < |s| ==> IsDigit(s[i]);
    }
  }

  function RemoveCommas(s: string): (r: string)
    ensures ',' !in r
  {
    if s == [] then [] else if s[0] == ',' then RemoveCommas(s[1..]) else [s[0]] + RemoveCommas(s[1..])
  }

  lemma {:induction false} RemoveCommasAppend(s: string, t: string)
    ensures RemoveCommas(s + t) == RemoveCommas(s) + RemoveCommas(t)
  {
    if s == [] {
      assert s + t == t;
    } else {
      var u := s + t;
      assert u[0] == s[0] && u[1..] == s[1..] + t;
      var h := if s[0] == ',' then [] else [s[0]];
      calc {
        RemoveCommas(u);
        h + RemoveCommas(s[1..] + t);
        { RemoveCommasAppend(s[1..], t); }
        h + (RemoveCommas(s[1..]) + RemoveCommas(t));
        (h + RemoveCommas(s[1..])) + RemoveCommas(t);
      }
    }
  }

  lemma {:induction false} RemoveCommasPlain(s: string)
    requires ',' !in s
    ensures RemoveCommas(s) == s
  {
    if s != [] {
      RemoveCommasPlain(s[1..]);
      assert s == [s[0]] + s[1..];
    }
  }

  /** Dropping the separators recovers the digits that were grouped. */
  lemma {:induction false} RemoveCommasGroup(s: string)
    requires ',' !in s
    ensures RemoveCommas(Group(s)) == s
  {
    if |s| <= 3 {
      RemoveCommasPlain(s);
    } else {
      var h, t := s[..|s| - 3], s[|s| - 3..];
      RemoveCommasGroup(h);
      RemoveCommasAppend(Group(h) + ",", t);
      RemoveCommasAppend(Group(h), ",");
      RemoveCommasPlain(t);
      assert RemoveCommas(",") == [];
      assert h + t == s;
    }
  }

  function Abs(v: int): nat
  {
    if v < 0 then -v else v
  }

  /**
   * `'$' + absValue.toFixed(2)` with the whole part grouped: a dollar sign,
   * the whole units grouped by thousands, a point and the two digits of the
   * cents.
   */
  function Unsigned(cents: nat): (r: string)
    ensures |r| >= 5 && r[0] == '$' && r[|r| - 3] == '.'
    ensures WellGrouped(r[1..|r| - 3]) && RemoveCommas(r[1..|r| - 3]) == Digits(cents / 100)
    ensures AllDigits(r[|r| - 2..]) && ValueOf(r[|r| - 2..]) == cents % 100
  {
    var d := Digits(cents / 100);
    GroupWellGrouped(d);
    RemoveCommasGroup(d);
    var f := TwoDigits(cents % 100);
    RenderingParts(Group(d), f);
    "$" + Group(d) + "." + f
  }

  /** The pieces of a rendering sit at fixed places from its two ends. */
  lemma RenderingParts(g: string, f: string)
    requires |f| == 2
    ensures var r := "$" + g + "." + f;
            && |r| == |g| + 4 && r[0] == '$' && r[|r| - 3] == '.'
            && r[1..|r| - 3] == g && r[|r| - 2..] == f
  {
    var r := "$" + g + "." + f;
    assert r[1..|r| - 3] == g;
    assert r[|r| - 2..] == f;
  }

  /**
   * `formatCurrency(value, preserveSign)`: a missing amount (null, undefined,
   * NaN) is "$0.00"; otherwise the absolute value, in parentheses when the
   * sign is preserved and the amount is negative.
   */
  function FormatCurrency(value: Option<int>, preserveSign: bool): (r: string)
    ensures value.None? ==> r == "$0.00"
    ensures value.Some? && preserveSign && value.value < 0 ==> r == "(" + Unsigned(Abs(value.value)) + ")"
    ensures value.Some? && !(preserveSign && value.value < 0) ==> r == Unsigned(Abs(value.value))
  {
    match value
    case None => "$0.00"
    case Some(v) =>
      var formatted := Unsigned(Abs(v));
      if preserveSign && v < 0 then "(" + formatted + ")" else formatted
  }

  /** Reads back an unsigned rendering: `$`, digits grouped by thousands, `.`, two digits. */
  function ParseUnsigned(s: string): Option<nat>
  {
    if |s| < 5 || s[0] != '$' || s[|s| - 3] != '.' then None
    else
      var whole := RemoveCommas(s[1..|s| - 3]);
      var fraction := s[|s| - 2..];
      if WellGrouped(s[1..|s| - 3]) && whole != [] && AllDigits(whole) && AllDigits(fraction) then
        Some(ValueOf(whole) * 100 + ValueOf(fraction))
      else None
  }

  /** Reads back a rendering, a parenthesised one as a negative amount. */
  function ParseCurrency(s: string): Option<int>
  {
    if |s| >= 2 && s[0] == '(' && s[|s| - 1] == ')' then
      match ParseUnsigned(s[1..|s| - 1])
      case Some(a) => Some(-(a as int))
      case None => None
    else
      match ParseUnsigned(s)
      case Some(a) => Some(a)
      case None => None
  }

  lemma ParseUnsignedRoundTrip(cents: nat)
    ensures ParseUnsigned(Unsigned(cents)) == Some(cents)
    ensures |Unsigned(cents)| >= 5 && Unsigned(cents)[0] == '$'
    ensures Unsigned(cents)[|Unsigned(cents)| - 1] != ')'
  {
    var s := Unsigned(cents);
    ValueOfDigits(cents / 100);
    assert s[|s| - 1] == s[|s| - 2..][1];
  }

  /** Separators out of place do not read back: only the grouping `Unsigned` produces does. */
  lemma ParseRejectsMisgrouped()
    ensures ParseUnsigned("$1,2,34.00") == None
  {
    var g := "1,2,34";
    assert "$1,2,34.00"[1..7] == g;
    assert g[1] == ',' && g[3] == ',';
  }

  /** With the sign preserved, reading the rendering back gives the amount. */
  lemma FormatCurrencyRoundTrip(v: int)
    ensures ParseCurrency(FormatCurrency(Some(v), true)) == Some(v)
  {
    var u := Unsigned(Abs(v));
    ParseUnsignedRoundTrip(Abs(v));
    if v < 0 {
      var s := "(" + u + ")";
      assert s[1..|s| - 1] == u;
    }
  }

  /** Without it (the summary table), the rendering reads back as the absolute value. */
  lemma FormatCurrencyDropsSign(v: int)
    ensures ParseCurrency(FormatCurrency(Some(v), false)) == Some(Abs(v))
  {
    ParseUnsignedRoundTrip(Abs(v));
  }

  /** A missing amount and a zero amount render the same. */
  lemma MissingIsZero(preserveSign: bool)
    ensures FormatCurrency(None, preserveSign) == FormatCurrency(Some(0), preserveSign)
  {
    assert Digits(0) == "0";
    assert TwoDigits(0) == "00";
  }
}
