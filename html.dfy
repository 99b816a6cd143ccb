/**
 * HTML escaping of the text placed in table cells and messages: the five
 * characters `&`, `<`, `>`, `"` and `'` become character references, every
 * other character is copied.
 */
module Html {
  import opened Wrappers

  /** The characters that `escapeHtml` rewrites. */
  predicate Special(c: char)
  {
    c == '&' || c == '<' || c == '>' || c == '"' || c == '\''
  }

  /** The replacement text of one character. */
  function EscapeChar(c: char): (r: string)
    ensures Special(c) ==> |r| >= 4 && r[0] == '&' && r[|r| - 1] == ';'
    ensures !Special(c) ==> r == [c]
    ensures '<' !in r && '>' !in r && '"' !in r && '\'' !in r
  {
    if c == '&' then "&amp;"
    else if c == '<' then "&lt;"
    else if c == '>' then "&gt;"
    else if c == '"' then "&quot;"
    else if c == '\'' then "&#039;"
    else [c]
  }

  /** `String(text).replace(/[&<>"']/g, ...)`: every character replaced by its escape. */
  function Escape(s: string): (r: string)
    ensures '<' !in r && '>' !in r && '"' !in r && '\'' !in r
    ensures |r| >= |s|
  {
    if s == [] then [] else EscapeChar(s[0]) + Escape(s[1..])
  }

  /** `escapeHtml(text)`: empty for a missing or empty text. */
  function EscapeHtml(text: Option<string>): (r: string)
    ensures text.None? || text.value == [] ==> r == []
    ensures '<' !in r && '>' !in r && '"' !in r && '\'' !in r
  {
    if text.None? || text.value == [] then [] else Escape(text.value)
  }

  /** Reading the five character references back, left to right. */
  function Unescape(s: string): string
  {
    if s == [] then []
    else if "&amp;" <= s then "&" + Unescape(s[5..])
    else if "&lt;" <= s then "<" + Unescape(s[4..])
    else if "&gt;" <= s then ">" + Unescape(s[4..])
    else if "&quot;" <= s then "\"" + Unescape(s[6..])
    else if "&#039;" <= s then "'" + Unescape(s[6..])
    else [s[0]] + Unescape(s[1..])
  }

  /** Reading back one escaped character in front of any text. */
  lemma UnescapeStep(c: char, t: string)
    ensures Unescape(EscapeChar(c) + t) == [c] + Unescape(t)
  {
    var e := EscapeChar(c);
    var w := e + t;
    assert e <= w;
    assert w[|e|..] == t;
    if c == '&' {
      assert "&amp;" <= w;
    } else if c == '<' {
      assert !("&amp;" <= w) by { assert w[1] == 'l'; }
      assert "&lt;" <= w;
    } else if c == '>' {
      assert !("&amp;" <= w) && !("&lt;" <= w) by { assert w[1] == 'g'; }
      assert "&gt;" <= w;
    } else if c == '"' {
      assert !("&amp;" <= w) && !("&lt;" <= w) && !("&gt;" <= w) by { assert w[1] == 'q'; }
      assert "&quot;" <= w;
    } else if c == '\'' {
      assert !("&amp;" <= w) && !("&lt;" <= w) && !("&gt;" <= w) && !("&quot;" <= w) by { assert w[1] == '#'; }
      assert "&#039;" <= w;
    } else {
      assert w[0] == c && w[0] != '&';
      assert !("&amp;" <= w) && !("&lt;" <= w) && !("&gt;" <= w) && !("&quot;" <= w) && !("&#039;" <= w);
    }
  }

  /** Replacing the references back recovers the text that was escaped. */
  lemma {:induction false} UnescapeEscape(s: string)
    ensures Unescape(Escape(s)) == s
  {
    if s != [] {
      UnescapeEscape(s[1..]);
      UnescapeStep(s[0], Escape(s[1..]));
      assert s == [s[0]] + s[1..];
    }
  }

  /** Text without any of the five characters is copied unchanged. */
  lemma {:induction false} EscapePlain(s: string)
    requires forall i :: 0 <= i < |s| ==> !Special(s[i])
    ensures Escape(s) == s
  {
    if s != [] {
      EscapePlain(s[1..]);
      assert s == [s[0]] + s[1..];
    }
  }

  /** Escaping distributes over concatenation: each character is escaped on its own. */
  lemma {:induction false} EscapeAppend(s: string, t: string)
    ensures Escape(s + t) == Escape(s) + Escape(t)
  {
    if s == [] {
      assert s + t == t;
    } else {
      var u := s + t;
      assert u[0] == s[0] && u[1..] == s[1..] + t;
      calc {
        Escape(u);
        EscapeChar(s[0]) + Escape(s[1..] + t);
        { EscapeAppend(s[1..], t); }
        EscapeChar(s[0]) + (Escape(s[1..]) + Escape(t));
        (EscapeChar(s[0]) + Escape(s[1..])) + Escape(t);
      }
    }
  }
}
