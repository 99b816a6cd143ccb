/**
 * The two string primitives the report's SQL and JavaScript rely on:
 * `REPLACE` / `String.prototype.replace(/.../g)` and `INSTR`.
 */
module Text {
  import opened Wrappers

  /**
   * Every occurrence of `pat` in `s` replaced by `rep`, scanning left to
   * right and never re-reading replaced text: the meaning both of SQL
   * `REPLACE(s, pat, rep)` and of JavaScript `s.replace(/pat/g, rep)`.
   */
  function ReplaceAll(s: string, pat: string, rep: string): string
    requires pat != []
    decreases |s|
  {
    if s == [] then []
    else if pat <= s then rep + ReplaceAll(s[|pat|..], pat, rep)
    else [s[0]] + ReplaceAll(s[1..], pat, rep)
  }

  /** `pat` occurs in `s` starting at position `i`. */
  predicate OccursAt(pat: string, s: string, i: nat)
  {
    i <= |s| && pat <= s[i..]
  }

  /** Text in which the pattern never occurs is left as it is. */
  lemma {:induction false} ReplaceAllAbsent(s: string, pat: string, rep: string)
    requires pat != []
    requires forall i: nat :: !OccursAt(pat, s, i)
    ensures ReplaceAll(s, pat, rep) == s
  {
    if s != [] {
      assert !OccursAt(pat, s, 0);
      assert s[0..] == s;
      forall i: nat ensures !OccursAt(pat, s[1..], i) {
        if i <= |s[1..]| {
          assert s[1..][i..] == s[i + 1..];
          assert !OccursAt(pat, s, i + 1);
        }
      }
      ReplaceAllAbsent(s[1..], pat, rep);
    }
  }

  /**
   * 0-based position of the first `c` in `s`: `INSTR(s, c) - 1`, with NULL
   * standing for INSTR's 0 ("not found").
   */
  function IndexOf(s: string, c: char): (r: Option<nat>)
    ensures r.None? <==> c !in s
    ensures r.Some? ==> r.value < |s| && s[r.value] == c && c !in s[..r.value]
  {
    if s == [] then None
    else if s[0] == c then Some(0)
    else
      match IndexOf(s[1..], c)
      case None => None
      case Some(i) =>
        assert s[..i + 1] == [s[0]] + s[1..][..i];
        Some(i + 1)
  }
}
