/** Characters and substrings as Python's `re` and `in` see them. */
module Text {

  /** Python's `\s` on a str pattern: the characters for which Unicode
      `isspace` holds (ASCII tab to carriage return, the four information
      separators, space, NEL, no-break space and the Unicode spaces). */
  predicate IsSpace(c: char) {
    var k := c as int;
    (9 <= k <= 13) || (28 <= k <= 32) || k == 0x85 || k == 0xA0 || k == 0x1680
    || (0x2000 <= k <= 0x200A) || k == 0x2028 || k == 0x2029 || k == 0x202F
    || k == 0x205F || k == 0x3000
  }

  /** Python's `\d`, restricted to the ASCII digits. */
  predicate IsDigit(c: char) {
    '0' <= c <= '9'
  }

  lemma SpaceIsNotDigit(c: char)
    requires IsSpace(c)
    ensures !IsDigit(c)
  {
  }

  predicate AllSpaces(s: string) {
    forall i :: 0 <= i < |s| ==> IsSpace(s[i])
  }

  predicate AllDigits(s: string) {
    forall i :: 0 <= i < |s| ==> IsDigit(s[i])
  }

  /** Python's `pat in line`: some slice of `line` equals `pat`. The empty
      pattern is in every line. */
  predicate Contains(line: string, pat: string) {
    exists i :: 0 <= i <= |line| - |pat| && OccursAt(line, pat, i)
  }

  /** `pat` stands in `line` from position `i` on. */
  predicate OccursAt(line: string, pat: string, i: int) {
    0 <= i <= |line| - |pat| && line[i..i + |pat|] == pat
  }

  /** A line that contains a non-empty pattern holds the pattern's first
      character. */
  lemma ContainsHasFirstChar(line: string, pat: string)
    requires Contains(line, pat) && |pat| > 0
    ensures exists i :: 0 <= i < |line| && line[i] == pat[0]
  {
    var i :| 0 <= i <= |line| - |pat| && OccursAt(line, pat, i);
    assert line[i] == line[i..i + |pat|][0];
  }

  /** Length of the longest prefix of `s` made of whitespace (a greedy `\s*`). */
  function SpanSpaces(s: string): (n: nat)
    ensures n <= |s| && AllSpaces(s[..n])
    ensures n < |s| ==> !IsSpace(s[n])
  {
    if s == [] || !IsSpace(s[0]) then 0
    else
      var n := 1 + SpanSpaces(s[1..]);
      assert forall i :: 1 <= i < n ==> s[..n][i] == s[1..][..n - 1][i - 1];
      n
  }

  /** Length of the longest prefix of `s` made of digits (a greedy `\d*`). */
  function SpanDigits(s: string): (n: nat)
    ensures n <= |s| && AllDigits(s[..n])
    ensures n < |s| ==> !IsDigit(s[n])
  {
    if s == [] || !IsDigit(s[0]) then 0
    else
      var n := 1 + SpanDigits(s[1..]);
      assert forall i :: 1 <= i < n ==> s[..n][i] == s[1..][..n - 1][i - 1];
      n
  }

  /** A greedy run stops exactly where its whitespace ends. */
  lemma {:induction false} SpanSpacesOf(ws: string, rest: string)
    requires AllSpaces(ws)
    requires rest == [] || !IsSpace(rest[0])
    ensures SpanSpaces(ws + rest) == |ws|
  {
    if ws != [] {
      assert (ws + rest)[1..] == ws[1..] + rest;
      SpanSpacesOf(ws[1..], rest);
    }
  }

  lemma {:induction false} SpanDigitsOf(ds: string, rest: string)
    requires AllDigits(ds)
    requires rest == [] || !IsDigit(rest[0])
    ensures SpanDigits(ds + rest) == |ds|
  {
    if ds != [] {
      assert (ds + rest)[1..] == ds[1..] + rest;
      SpanDigitsOf(ds[1..], rest);
    }
  }

  function Pow10(n: nat): (p: nat)
    ensures p >= 1
  {
    if n == 0 then 1 else 10 * Pow10(n - 1)
  }

  /** The value of a digit string read in base 10, as `int(...)` reads it. */
  function DigitsValue(ds: string): (v: nat)
    requires AllDigits(ds)
    ensures v < Pow10(|ds|)
  {
    if ds == [] then 0
    else
      var last := ds[|ds| - 1];
      10 * DigitsValue(ds[..|ds| - 1]) + (last as int - '0' as int)
  }
}
