/**
 * The string operations the handlers apply to stored text: ASCII lower-casing
 * (String.prototype.toLowerCase), substring search (includes), prefix test
 * (startsWith), white-space trimming (trim) and single-character replacement
 * (replace with a global one-character pattern).
 */
module Text {

  /** Lower-cases one character; only the ASCII letters A-Z are mapped. */
  function LowerChar(c: char): (d: char)
    ensures 'A' <= c <= 'Z' ==> 'a' <= d <= 'z' && d as int == c as int + 32
    ensures !('A' <= c <= 'Z') ==> d == c
  {
    if 'A' <= c <= 'Z' then (c as int + 32) as char else c
  }

  /** The lower-cased copy of a string. */
  function Lower(s: string): (r: string)
    ensures |r| == |s|
    ensures forall i :: 0 <= i < |s| ==> r[i] == LowerChar(s[i])
  {
    if s == [] then [] else [LowerChar(s[0])] + Lower(s[1..])
  }

  /** Lower-casing a lower-cased string changes nothing, so comparing after one
      lower-casing is the same as comparing after any number of them. */
  lemma LowerIdempotent(s: string)
    ensures Lower(Lower(s)) == Lower(s)
  {
    var r := Lower(s);
    assert forall i :: 0 <= i < |r| ==> Lower(r)[i] == r[i];
  }

  predicate StartsWith(s: string, prefix: string) {
    |prefix| <= |s| && s[..|prefix|] == prefix
  }

  /** `part` occurs in `s` at position i. */
  predicate OccursAt(s: string, part: string, i: int) {
    0 <= i && i + |part| <= |s| && s[i..i + |part|] == part
  }

  /** True when `part` occurs somewhere in `s`; the empty string occurs everywhere. */
  function Contains(s: string, part: string): (b: bool)
    ensures b <==> exists i :: OccursAt(s, part, i)
    decreases |s|
  {
    if StartsWith(s, part) then
      assert OccursAt(s, part, 0);
      true
    else if s == [] then
      false
    else
      var b := Contains(s[1..], part);
      if b then
        var i :| OccursAt(s[1..], part, i);
        assert s[1..][i..i + |part|] == s[i + 1..i + 1 + |part|];
        assert OccursAt(s, part, i + 1);
        true
      else
        assert !OccursAt(s, part, 0) by {
          if |part| <= |s| {
            assert s[..|part|] == s[0..|part|];
          }
        }
        forall i | 1 <= i && OccursAt(s, part, i) ensures OccursAt(s[1..], part, i - 1) {
          assert s[1..][i - 1..i - 1 + |part|] == s[i..i + |part|];
        }
        false
  }

  /** The white-space characters JavaScript's trim removes: TAB, LF, VT, FF, CR,
      SPACE, NBSP, the Unicode space separators, the line and paragraph
      separators and the byte-order mark. */
  predicate IsWhiteSpace(c: char) {
    var n := c as int;
    (9 <= n <= 13) || n == 0x20 || n == 0xA0 || n == 0x1680 || (0x2000 <= n <= 0x200A)
    || n == 0x2028 || n == 0x2029 || n == 0x202F || n == 0x205F || n == 0x3000 || n == 0xFEFF
  }

  /** The length of the white-space run at the start of `s`. */
  function LeadingSpace(s: string): (k: nat)
    ensures k <= |s|
    ensures forall j :: 0 <= j < k ==> IsWhiteSpace(s[j])
    ensures k < |s| ==> !IsWhiteSpace(s[k])
  {
    if s != [] && IsWhiteSpace(s[0]) then 1 + LeadingSpace(s[1..]) else 0
  }

  /** The index at which the white-space run at the end of `s` begins. */
  function TrailingSpace(s: string): (k: nat)
    ensures k <= |s|
    ensures forall j :: k <= j < |s| ==> IsWhiteSpace(s[j])
    ensures 0 < k ==> !IsWhiteSpace(s[k - 1])
  {
    if s != [] && IsWhiteSpace(s[|s| - 1]) then TrailingSpace(s[..|s| - 1]) else |s|
  }

  /** JavaScript's String.prototype.trim: the slice of `s` between its leading
      and its trailing white space. */
  function Trim(s: string): (r: string)
    ensures OccursAt(s, r, LeadingSpace(s))
    ensures forall j :: LeadingSpace(s) + |r| <= j < |s| ==> IsWhiteSpace(s[j])
    ensures r != [] ==> !IsWhiteSpace(r[0]) && !IsWhiteSpace(r[|r| - 1])
  {
    var t := s[LeadingSpace(s)..];
    var r := t[..TrailingSpace(t)];
    assert s[LeadingSpace(s)..LeadingSpace(s) + |r|] == r;
    r
  }

  /** Trimming twice is trimming once. */
  lemma TrimIdempotent(s: string)
    ensures Trim(Trim(s)) == Trim(s)
  {
    var t := Trim(s);
    if t != [] {
      assert LeadingSpace(t) == 0;
      assert TrailingSpace(t) == |t|;
    }
  }

  /** Replaces every occurrence of the character `from` by `to`. */
  function ReplaceAll(s: string, from: char, to: char): (r: string)
    ensures |r| == |s|
    ensures forall i :: 0 <= i < |s| ==> r[i] == (if s[i] == from then to else s[i])
    ensures from != to ==> from !in r
  {
    if s == [] then [] else [if s[0] == from then to else s[0]] + ReplaceAll(s[1..], from, to)
  }

  /** Converting every '/' to '\' and then every '\' to '/' gives the same string
      as converting every '\' to '/' directly: the two path normalisations agree. */
  lemma SlashRoundTrip(s: string)
    ensures ReplaceAll(ReplaceAll(s, '/', '\\'), '\\', '/') == ReplaceAll(s, '\\', '/')
  {
    var a := ReplaceAll(ReplaceAll(s, '/', '\\'), '\\', '/');
    var b := ReplaceAll(s, '\\', '/');
    assert forall i :: 0 <= i < |s| ==> a[i] == b[i];
  }
}
