/** The two JavaScript string primitives the application relies on:
    `String.prototype.includes` and `String.prototype.trim`. */
module Strings {

  /** `sub` occurs in `s` starting at offset `i`. */
  predicate OccursAt(s: string, sub: string, i: int)
  {
    0 <= i && i + |sub| <= |s| && s[i..i + |sub|] == sub
  }

  /** Some offset of `s` starts an occurrence of `sub`. */
  predicate HasOccurrence(s: string, sub: string)
  {
    exists i :: 0 <= i <= |s| - |sub| && OccursAt(s, sub, i)
  }

  /** An occurrence is either at the front or in the rest of the string. */
  lemma OccurrenceStep(s: string, sub: string)
    requires |sub| <= |s|
    ensures HasOccurrence(s, sub) <==> s[..|sub|] == sub || HasOccurrence(s[1..], sub)
  {
    if s[..|sub|] == sub {
      assert OccursAt(s, sub, 0);
    } else if HasOccurrence(s[1..], sub) {
      var i :| 0 <= i <= |s| - 1 - |sub| && OccursAt(s[1..], sub, i);
      assert s[1..][i..i + |sub|] == s[i + 1..i + 1 + |sub|];
      assert OccursAt(s, sub, i + 1);
    } else {
      forall i | 0 < i <= |s| - |sub|
        ensures !OccursAt(s, sub, i)
      {
        assert s[1..][i - 1..i - 1 + |sub|] == s[i..i + |sub|];
        assert !OccursAt(s[1..], sub, i - 1);
      }
    }
  }

  /** `s.includes(sub)`, as a left-to-right search: it finds something
      exactly when some offset of `s` starts an occurrence of `sub`. */
  function Contains(s: string, sub: string): (found: bool)
    ensures found <==> HasOccurrence(s, sub)
    decreases |s|
  {
    if |sub| > |s| then false
    else
      OccurrenceStep(s, sub);
      s[..|sub|] == sub || Contains(s[1..], sub)
  }

  /** A string in which the first character of `sub` never appears cannot
      contain `sub`. */
  lemma AbsentCharNotContained(s: string, sub: string)
    requires |sub| > 0 && sub[0] !in s
    ensures !Contains(s, sub)
  {
  }

  /** Every occurrence found at an offset makes `Contains` true. */
  lemma OccurrenceContained(s: string, sub: string, i: int)
    requires OccursAt(s, sub, i)
    ensures Contains(s, sub)
  {
  }

  /** The characters removed by `trim`: the ECMAScript WhiteSpace code points
      (tab, vertical tab, form feed, space, no-break space, byte order mark and
      the Unicode space separators) and the LineTerminator code points. */
  predicate IsWhitespace(c: char)
  {
    var n := c as int;
    || n == 0x09 || n == 0x0A || n == 0x0B || n == 0x0C || n == 0x0D
    || n == 0x20 || n == 0xA0 || n == 0x1680
    || (0x2000 <= n <= 0x200A)
    || n == 0x2028 || n == 0x2029 || n == 0x202F || n == 0x205F
    || n == 0x3000 || n == 0xFEFF
  }

  /** Every character of `s` is whitespace (in particular, `""` is blank). */
  predicate IsBlank(s: string)
  {
    forall i :: 0 <= i < |s| ==> IsWhitespace(s[i])
  }

  /** All characters of `s` at positions `lo` up to `hi` are whitespace. */
  predicate BlankBetween(s: string, lo: int, hi: int)
  {
    forall i :: lo <= i < hi && 0 <= i < |s| ==> IsWhitespace(s[i])
  }

  /** Leading whitespace removed: `r` is a suffix of `s`, everything before
      it is whitespace, and `r` does not start with whitespace. */
  function TrimStart(s: string): (r: string)
    ensures |r| <= |s| && r == s[|s| - |r|..]
    ensures BlankBetween(s, 0, |s| - |r|)
    ensures |r| > 0 ==> !IsWhitespace(r[0])
  {
    if |s| > 0 && IsWhitespace(s[0]) then
      var t := TrimStart(s[1..]);
      assert forall i :: 1 <= i < |s| ==> s[1..][i - 1] == s[i];
      t
    else
      s
  }

  /** Trailing whitespace removed: `r` is a prefix of `s`, everything after
      it is whitespace, and `r` does not end with whitespace. */
  function TrimEnd(s: string): (r: string)
    ensures |r| <= |s| && r == s[..|r|]
    ensures BlankBetween(s, |r|, |s|)
    ensures |r| > 0 ==> !IsWhitespace(r[|r| - 1])
  {
    if |s| > 0 && IsWhitespace(s[|s| - 1]) then
      var t := TrimEnd(s[..|s| - 1]);
      assert forall i :: 0 <= i < |s| - 1 ==> s[..|s| - 1][i] == s[i];
      t
    else
      s
  }

  /** `r` is the slice of `s` at offset `a`, with only whitespace on either
      side of it. */
  predicate BlankBordered(s: string, r: string, a: int)
  {
    && 0 <= a && a + |r| <= |s| && r == s[a..a + |r|]
    && BlankBetween(s, 0, a) && BlankBetween(s, a + |r|, |s|)
  }

  lemma BorderedComposition(s: string, u: string, r: string)
    requires |u| <= |s| && u == s[|s| - |u|..] && BlankBetween(s, 0, |s| - |u|)
    requires |r| <= |u| && r == u[..|r|] && BlankBetween(u, |r|, |u|)
    ensures BlankBordered(s, r, |s| - |u|)
  {
    var a := |s| - |u|;
    forall i | a + |r| <= i < |s|
      ensures IsWhitespace(s[i])
    {
      assert s[i] == u[i - a];
    }
  }

  /** `s.trim()`: the result neither starts nor ends with whitespace, and it
      is empty (falsy) exactly when every character of `s` is whitespace. */
  function Trim(s: string): (r: string)
    ensures |r| <= |s|
    ensures |r| > 0 ==> !IsWhitespace(r[0]) && !IsWhitespace(r[|r| - 1])
    ensures r == "" <==> IsBlank(s)
  {
    var u := TrimStart(s);
    var r := TrimEnd(u);
    assert |r| > 0 ==> r[0] == u[0] && s[|s| - |u|] == u[0];
    r
  }

  /** Trimming removes whitespace only: the result is the slice of `s` at
      some offset, with only whitespace on either side of it. */
  lemma TrimIsSlice(s: string)
    ensures exists a :: BlankBordered(s, Trim(s), a)
  {
    var u := TrimStart(s);
    BorderedComposition(s, u, TrimEnd(u));
    assert BlankBordered(s, Trim(s), |s| - |u|);
  }
}
