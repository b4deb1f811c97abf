/**
 * String helpers used by the models: prefix and suffix tests, substring
 * search, and trimming with a caller-chosen notion of white space (the
 * JavaScript and the Python string libraries disagree on which characters
 * count as white space).
 */
module Text {

  /** `s.startsWith(p)` / `s.startswith(p)`. */
  predicate StartsWith(s: string, p: string) {
    |p| <= |s| && s[..|p|] == p
  }

  /** `s.endsWith(p)` / `s.endswith(p)`. */
  predicate EndsWith(s: string, p: string) {
    |p| <= |s| && s[|s| - |p|..] == p
  }

  /** `s.includes(p)` in JavaScript, `p in s` in Python. */
  predicate Contains(s: string, p: string) {
    exists i :: 0 <= i <= |s| - |p| && OccursAt(s, p, i)
  }

  /** `p` occurs in `s` starting at index `i`. */
  predicate OccursAt(s: string, p: string, i: int) {
    0 <= i <= |s| - |p| && s[i..i + |p|] == p
  }

  /** The characters JavaScript's `String.prototype.trim` removes (WhiteSpace and LineTerminator). */
  predicate IsJsSpace(c: char) {
    c == '\t' || c == '\n' || c == '\U{B}' || c == '\U{C}' || c == '\r' || c == ' '
    || c == '\U{A0}' || c == '\U{1680}' || ('\U{2000}' <= c <= '\U{200A}')
    || c == '\U{2028}' || c == '\U{2029}' || c == '\U{202F}' || c == '\U{205F}'
    || c == '\U{3000}' || c == '\U{FEFF}'
  }

  /** The characters Python's `str.strip()` removes (those for which `str.isspace` holds). */
  predicate IsPySpace(c: char) {
    c == '\t' || c == '\n' || c == '\U{B}' || c == '\U{C}' || c == '\r'
    || ('\U{1C}' <= c <= '\U{1F}') || c == ' ' || c == '\U{85}' || c == '\U{A0}'
    || c == '\U{1680}' || ('\U{2000}' <= c <= '\U{200A}') || c == '\U{2028}'
    || c == '\U{2029}' || c == '\U{202F}' || c == '\U{205F}' || c == '\U{3000}'
  }

  /** The UTF-16 code units of `s[i..]`: one per character, two for a character above U+FFFF. */
  function CodeUnitsFrom(s: string, i: nat): (n: nat)
    requires i <= |s|
    ensures |s| - i <= n <= 2 * (|s| - i)
    decreases |s| - i
  {
    if i == |s| then 0 else (if s[i] as int >= 0x1_0000 then 2 else 1) + CodeUnitsFrom(s, i + 1)
  }

  /** JavaScript's `s.length`: the number of UTF-16 code units of `s`. */
  function Utf16Length(s: string): nat {
    CodeUnitsFrom(s, 0)
  }

  /** Without characters above U+FFFF the code-unit count is the character count. */
  lemma {:induction false} BmpCodeUnits(s: string, i: nat)
    requires i <= |s|
    requires forall k :: 0 <= k < |s| ==> s[k] as int < 0x1_0000
    ensures CodeUnitsFrom(s, i) == |s| - i
    decreases |s| - i
  {
    if i < |s| {
      assert s[i] as int < 0x1_0000;
      BmpCodeUnits(s, i + 1);
    }
  }

  lemma BmpUtf16Length(s: string)
    requires forall k :: 0 <= k < |s| ==> s[k] as int < 0x1_0000
    ensures Utf16Length(s) == |s|
  {
    BmpCodeUnits(s, 0);
  }

  /** The first index at or after `i` whose character is not in `ws` (`|s|` when there is none). */
  function SkipLeading(s: string, ws: char -> bool, i: nat): (j: nat)
    requires i <= |s|
    ensures i <= j <= |s|
    ensures j < |s| ==> !ws(s[j])
    decreases |s| - i
  {
    if i < |s| && ws(s[i]) then SkipLeading(s, ws, i + 1) else i
  }

  /** The end of `s[lo..j]` once the characters in `ws` at its end are dropped. */
  function SkipTrailing(s: string, ws: char -> bool, lo: nat, j: nat): (e: nat)
    requires lo <= j <= |s|
    ensures lo <= e <= j
    ensures lo < e ==> !ws(s[e - 1])
    decreases j
  {
    if lo < j && ws(s[j - 1]) then SkipTrailing(s, ws, lo, j - 1) else j
  }

  /** Where the trimmed text starts in the input. */
  function TrimStart(s: string, ws: char -> bool): nat {
    SkipLeading(s, ws, 0)
  }

  /** Where the trimmed text ends in the input. */
  function TrimEnd(s: string, ws: char -> bool): (e: nat)
    ensures TrimStart(s, ws) <= e <= |s|
  {
    SkipTrailing(s, ws, TrimStart(s, ws), |s|)
  }

  /** Drops white space (as `ws` defines it) from both ends. */
  function Trim(s: string, ws: char -> bool): string {
    s[TrimStart(s, ws)..TrimEnd(s, ws)]
  }

  /** Every character skipped from the front is white space. */
  lemma {:induction false} SkippedLeading(s: string, ws: char -> bool, i: nat)
    requires i <= |s|
    ensures forall k :: i <= k < SkipLeading(s, ws, i) ==> ws(s[k])
    decreases |s| - i
  {
    if i < |s| && ws(s[i]) {
      SkippedLeading(s, ws, i + 1);
    }
  }

  /** Every character dropped from the end is white space. */
  lemma {:induction false} SkippedTrailing(s: string, ws: char -> bool, lo: nat, j: nat)
    requires lo <= j <= |s|
    ensures forall k :: SkipTrailing(s, ws, lo, j) <= k < j ==> ws(s[k])
    decreases j
  {
    if lo < j && ws(s[j - 1]) {
      SkippedTrailing(s, ws, lo, j - 1);
    }
  }

  /**
   * A trimmed string is a contiguous piece of the input, and only white
   * space was cut off on either side of it.
   */
  lemma TrimIsSlice(s: string, ws: char -> bool)
    ensures var i, r := TrimStart(s, ws), Trim(s, ws);
      i + |r| <= |s| && r == s[i..i + |r|]
      && (forall k :: 0 <= k < i ==> ws(s[k]))
      && (forall k :: i + |r| <= k < |s| ==> ws(s[k]))
  {
    SkippedLeading(s, ws, 0);
    SkippedTrailing(s, ws, TrimStart(s, ws), |s|);
  }

  /** The trimmed string neither starts nor ends with white space. */
  lemma TrimEnds(s: string, ws: char -> bool)
    ensures var r := Trim(s, ws); r != [] ==> !ws(r[0]) && !ws(r[|r| - 1])
  {
    var i, e := TrimStart(s, ws), TrimEnd(s, ws);
    if i < e {
      assert Trim(s, ws)[0] == s[i];
      assert Trim(s, ws)[e - i - 1] == s[e - 1];
    }
  }

  /** A string without white space at either end is its own trim. */
  lemma TrimUnchanged(s: string, ws: char -> bool)
    requires s != [] ==> !ws(s[0]) && !ws(s[|s| - 1])
    ensures Trim(s, ws) == s
  {
    assert TrimStart(s, ws) == 0;
    assert TrimEnd(s, ws) == |s|;
  }

  /** Trimming twice is trimming once. */
  lemma TrimIdempotent(s: string, ws: char -> bool)
    ensures Trim(Trim(s, ws), ws) == Trim(s, ws)
  {
    TrimEnds(s, ws);
    TrimUnchanged(Trim(s, ws), ws);
  }

  /** A string none of whose characters is white space is its own trim. */
  lemma NoSpaceTrim(s: string, ws: char -> bool)
    requires forall k :: 0 <= k < |s| ==> !ws(s[k])
    ensures Trim(s, ws) == s
  {
    TrimUnchanged(s, ws);
  }

  /** The trim is empty exactly when every character is white space. */
  lemma TrimEmpty(s: string, ws: char -> bool)
    ensures Trim(s, ws) == [] <==> forall k :: 0 <= k < |s| ==> ws(s[k])
  {
    var i := TrimStart(s, ws);
    SkippedLeading(s, ws, 0);
    SkippedTrailing(s, ws, i, |s|);
    if i < |s| {
      assert !ws(s[i]);
    }
  }

  /**
   * `p` is not found in `a + b` when it is found in neither piece and the
   * first character of `b` differs from every character of `p` after its
   * first (so no occurrence can straddle the join).
   */
  lemma ConcatNotContains(a: string, b: string, p: string)
    requires !Contains(a, p) && !Contains(b, p)
    requires b != [] ==> forall k :: 1 <= k < |p| ==> b[0] != p[k]
    ensures !Contains(a + b, p)
  {
    var s := a + b;
    forall i | 0 <= i <= |s| - |p| ensures !OccursAt(s, p, i) {
      if i + |p| <= |a| {
        assert s[i..i + |p|] == a[i..i + |p|];
        assert !OccursAt(a, p, i);
      } else if i >= |a| {
        assert s[i..i + |p|] == b[i - |a|..i - |a| + |p|];
        assert !OccursAt(b, p, i - |a|);
      } else {
        assert s[i..i + |p|][|a| - i] == b[0];
      }
    }
  }

  /** A string whose middle piece starts with `p` contains `p`. */
  lemma ContainsMiddle(a: string, b: string, c: string, p: string)
    requires StartsWith(b, p)
    ensures Contains(a + b + c, p)
  {
    var s := a + b + c;
    assert s[|a|..|a| + |p|] == b[..|p|];
    assert OccursAt(s, p, |a|);
  }

  /** A string in which the first two characters of `p` never appear side by side does not contain `p`. */
  lemma NoPairNotContains(s: string, p: string)
    requires |p| >= 2
    requires forall i :: 0 <= i < |s| - 1 ==> !(s[i] == p[0] && s[i + 1] == p[1])
    ensures !Contains(s, p)
  {
    forall i | 0 <= i <= |s| - |p|
      ensures !OccursAt(s, p, i)
    {
      assert s[i..i + |p|][0] == s[i] && s[i..i + |p|][1] == s[i + 1];
    }
  }
}
