/**
 * The String.prototype operations the core uses: `includes`, `replace` with a
 * string pattern, `trim`, `split(sep)[0]` and `slice`. Strings are sequences of
 * Unicode scalar values here, where JavaScript counts UTF-16 code units.
 */
module JsStrings {
  import opened Wrappers

  /** `pat` occurs in `s` starting at index `i`. */
  predicate MatchesAt(s: string, pat: string, i: nat) {
    i + |pat| <= |s| && s[i..i + |pat|] == pat
  }

  /** The first index at or after `from` where `pat` occurs. */
  function IndexOfFrom(s: string, pat: string, from: nat): (r: Option<nat>)
    ensures r.Some? ==> from <= r.value && MatchesAt(s, pat, r.value)
    ensures r.Some? ==> forall j :: from <= j < r.value ==> !MatchesAt(s, pat, j)
    ensures r.None? ==> forall j :: from <= j ==> !MatchesAt(s, pat, j)
    decreases |s| - from
  {
    if from + |pat| > |s| then None
    else if s[from..from + |pat|] == pat then Some(from)
    else IndexOfFrom(s, pat, from + 1)
  }

  /** `s.indexOf(pat)`, with None for -1. */
  function IndexOf(s: string, pat: string): Option<nat> {
    IndexOfFrom(s, pat, 0)
  }

  /** `s.includes(pat)` */
  predicate Includes(s: string, pat: string) {
    IndexOf(s, pat).Some?
  }

  lemma IncludesIff(s: string, pat: string)
    ensures Includes(s, pat) <==> exists j :: MatchesAt(s, pat, j)
  {
    if !Includes(s, pat) {
      assert forall j :: 0 <= j ==> !MatchesAt(s, pat, j);
    }
  }

  /**
   * GetSubstitution for a string pattern (no capture groups): in the replacement,
   * "$$" stands for "$", "$&" for the matched text, "$`" for the text before the
   * match and "$'" for the text after it; every other character is literal.
   */
  function Substitution(matched: string, str: string, position: nat, replacement: string): string
    requires position + |matched| <= |str|
    decreases |replacement|
  {
    if |replacement| >= 2 && replacement[0] == '$' && replacement[1] in "$&`'" then
      var piece :=
        if replacement[1] == '$' then "$"
        else if replacement[1] == '&' then matched
        else if replacement[1] == '`' then str[..position]
        else str[position + |matched|..];
      piece + Substitution(matched, str, position, replacement[2..])
    else if replacement == [] then ""
    else [replacement[0]] + Substitution(matched, str, position, replacement[1..])
  }

  /** A replacement without "$" is inserted literally. */
  lemma {:induction false} SubstitutionLiteral(matched: string, str: string, position: nat, replacement: string)
    requires position + |matched| <= |str|
    requires '$' !in replacement
    ensures Substitution(matched, str, position, replacement) == replacement
    decreases |replacement|
  {
    if replacement != [] {
      assert replacement[0] != '$';
      SubstitutionLiteral(matched, str, position, replacement[1..]);
    }
  }

  /** `s.replace(pat, replacement)` with a string pattern: only the first occurrence is replaced. */
  function ReplaceFirst(s: string, pat: string, replacement: string): (r: string)
    ensures IndexOf(s, pat).None? ==> r == s
    ensures IndexOf(s, pat).Some? ==>
      var i := IndexOf(s, pat).value;
      r == s[..i] + Substitution(pat, s, i, replacement) + s[i + |pat|..]
  {
    match IndexOf(s, pat)
    case None => s
    case Some(i) => s[..i] + Substitution(pat, s, i, replacement) + s[i + |pat|..]
  }

  /** With a "$"-free replacement the first occurrence of `pat` is swapped for it verbatim. */
  lemma ReplaceFirstLiteral(s: string, pat: string, replacement: string, i: nat)
    requires '$' !in replacement
    requires IndexOf(s, pat) == Some(i)
    ensures ReplaceFirst(s, pat, replacement) == s[..i] + replacement + s[i + |pat|..]
    ensures MatchesAt(s, pat, i) && forall j :: 0 <= j < i ==> !MatchesAt(s, pat, j)
  {
    SubstitutionLiteral(pat, s, i, replacement);
  }

  // ------------------------------------------------------------------ trim

  /** WhiteSpace and LineTerminator code points, the characters `trim` removes. */
  predicate IsTrimmable(c: char) {
    var k := c as int;
    k == 0x09 || k == 0x0A || k == 0x0B || k == 0x0C || k == 0x0D || k == 0x20
    || k == 0xA0 || k == 0x1680 || (0x2000 <= k <= 0x200A) || k == 0x2028 || k == 0x2029
    || k == 0x202F || k == 0x205F || k == 0x3000 || k == 0xFEFF
  }

  function TrimStart(s: string): (r: string)
    ensures |r| <= |s| && r == s[|s| - |r|..]
    ensures forall i :: 0 <= i < |s| - |r| ==> IsTrimmable(s[i])
    ensures r == [] || !IsTrimmable(r[0])
    decreases |s|
  {
    if s != [] && IsTrimmable(s[0]) then TrimStart(s[1..]) else s
  }

  function TrimEnd(s: string): (r: string)
    ensures |r| <= |s| && r == s[..|r|]
    ensures forall i :: |r| <= i < |s| ==> IsTrimmable(s[i])
    ensures r == [] || !IsTrimmable(r[|r| - 1])
    decreases |s|
  {
    if s != [] && IsTrimmable(s[|s| - 1]) then TrimEnd(s[..|s| - 1]) else s
  }

  /** `r` sits at position `i` of `s`, and everything of `s` before and after it is white space. */
  predicate PieceWithSpaceAround(s: string, r: string, i: int) {
    0 <= i <= |s| - |r| && r == s[i..i + |r|]
    && (forall j :: 0 <= j < i ==> IsTrimmable(s[j]))
    && (forall j :: i + |r| <= j < |s| ==> IsTrimmable(s[j]))
  }

  /** What remains after trimming both ends lies in `s` with only white space around it. */
  lemma TrimmedPiece(s: string)
    ensures PieceWithSpaceAround(s, TrimEnd(TrimStart(s)), |s| - |TrimStart(s)|)
  {
    var t := TrimStart(s);
    PieceOfSuffix(s, t, TrimEnd(t), |s| - |t|);
  }

  /** A prefix `r` of the suffix `t == s[i..]`, with white space before `t` and after `r`, is such a piece. */
  lemma PieceOfSuffix(s: string, t: string, r: string, i: int)
    requires 0 <= i <= |s| && t == s[i..] && |r| <= |t| && r == t[..|r|]
    requires forall j :: 0 <= j < i ==> IsTrimmable(s[j])
    requires forall j :: |r| <= j < |t| ==> IsTrimmable(t[j])
    ensures PieceWithSpaceAround(s, r, i)
  {
    forall j | i + |r| <= j < |s|
      ensures IsTrimmable(s[j])
    {
      assert s[j] == t[j - i];
    }
  }

  /** `s.trim()`: one contiguous piece of `s`, with only white space around it, and no white space at either end. */
  function Trim(s: string): (r: string)
    ensures |r| <= |s|
    ensures r == [] || (!IsTrimmable(r[0]) && !IsTrimmable(r[|r| - 1]))
    ensures exists i :: PieceWithSpaceAround(s, r, i)
  {
    TrimmedPiece(s);
    TrimEnd(TrimStart(s))
  }


  /** `s.trim()` is empty exactly when every character of `s` is white space. */
  lemma TrimEmptyIff(s: string)
    ensures Trim(s) == "" <==> forall i :: 0 <= i < |s| ==> IsTrimmable(s[i])
  {
  }

  // ------------------------------------------------------ split and slice

  /** `s.split(sep)[0]`: the text before the first `sep`, or all of `s`. */
  function FirstSegment(s: string, sep: string): (r: string)
    requires sep != ""
    ensures |r| <= |s| && r == s[..|r|]
    ensures forall j :: !MatchesAt(r, sep, j)
    ensures |r| < |s| ==> MatchesAt(s, sep, |r|)
  {
    match IndexOf(s, sep)
    case None =>
      PrefixMatches(s, s, sep);
      s
    case Some(i) =>
      PrefixMatches(s, s[..i], sep);
      s[..i]
  }

  /** A match inside a prefix of `s` is a match in `s`. */
  lemma PrefixMatches(s: string, p: string, pat: string)
    requires |p| <= |s| && p == s[..|p|]
    ensures forall j: nat :: MatchesAt(p, pat, j) ==> MatchesAt(s, pat, j) && j + |pat| <= |p|
  {
    forall j: nat | MatchesAt(p, pat, j) ensures MatchesAt(s, pat, j) {
      assert s[j..j + |pat|] == p[j..j + |pat|];
    }
  }

  /** `s.slice(start, end)` for non-negative arguments: both are clamped to the length. */
  function Slice(s: string, start: nat, end: nat): (r: string)
    ensures |r| <= |s| && |r| <= if end >= start then end - start else 0
    ensures r != "" ==> start + |r| <= |s| && r == s[start..start + |r|]
    ensures start <= end && end <= |s| ==> r == s[start..end]
    ensures start >= |s| || start >= end ==> r == ""
    ensures start < |s| && start < end ==> |r| == (if end < |s| then end else |s|) - start
  {
    var from := if start < |s| then start else |s|;
    var to := if end < |s| then end else |s|;
    if from >= to then "" else s[from..to]
  }
}
