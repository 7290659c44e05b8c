/** Character classes and string helpers shared by the link rewriter, the
    sheet-name extraction and the post picker. */
module Text {

  /** The white space and line terminators that `String.prototype.trim`
      removes: the WhiteSpace and LineTerminator code points of ECMA-262. */
  predicate IsSpace(c: char)
  {
    || c == ' ' || c == '\t' || c == '\n' || c == '\r' || c == '\U{000B}' || c == '\U{000C}'
    || c == '\U{00A0}' || c == '\U{FEFF}' || c == '\U{1680}' || ('\U{2000}' <= c <= '\U{200A}')
    || c == '\U{2028}' || c == '\U{2029}' || c == '\U{202F}' || c == '\U{205F}' || c == '\U{3000}'
  }

  /** `\d` in a JavaScript regular expression without the `u` flag. */
  predicate IsDigit(c: char)
  {
    '0' <= c <= '9'
  }

  /** `[a-zA-Z0-9_.]` */
  predicate IsNameChar(c: char)
  {
    ('a' <= c <= 'z') || ('A' <= c <= 'Z') || IsDigit(c) || c == '_' || c == '.'
  }

  predicate AllDigits(s: string)
  {
    forall i :: 0 <= i < |s| ==> IsDigit(s[i])
  }

  predicate AllNameChars(s: string)
  {
    forall i :: 0 <= i < |s| ==> IsNameChar(s[i])
  }

  predicate AllSpaces(s: string)
  {
    forall i :: 0 <= i < |s| ==> IsSpace(s[i])
  }

  predicate StartsWith(s: string, prefix: string)
  {
    |prefix| <= |s| && s[..|prefix|] == prefix
  }

  /** r occurs in s at offset i. */
  predicate SliceAt(s: string, i: int, r: string)
  {
    0 <= i <= |s| - |r| && r == s[i..i + |r|]
  }

  /** The first position at or after i that does not hold white space. */
  function SkipSpaces(s: string, i: nat): (j: nat)
    requires i <= |s|
    ensures i <= j <= |s|
    decreases |s| - i
  {
    if i < |s| && IsSpace(s[i]) then SkipSpaces(s, i + 1) else i
  }

  /** Moving back from j, but not past lo, the first position whose
      preceding character is not white space. */
  function SkipSpacesBack(s: string, lo: nat, j: nat): (k: nat)
    requires lo <= j <= |s|
    ensures lo <= k <= j
    decreases j
  {
    if lo < j && IsSpace(s[j - 1]) then SkipSpacesBack(s, lo, j - 1) else j
  }

  /** `String.prototype.trim`: drops white space at both ends. */
  function Trim(s: string): (r: string)
    ensures |r| <= |s|
  {
    var a := SkipSpaces(s, 0);
    s[a..SkipSpacesBack(s, a, |s|)]
  }

  lemma {:induction false} SkipSpacesSpec(s: string, i: nat)
    requires i <= |s|
    ensures forall k :: i <= k < SkipSpaces(s, i) ==> IsSpace(s[k])
    ensures SkipSpaces(s, i) < |s| ==> !IsSpace(s[SkipSpaces(s, i)])
    decreases |s| - i
  {
    if i < |s| && IsSpace(s[i]) {
      SkipSpacesSpec(s, i + 1);
    }
  }

  lemma {:induction false} SkipSpacesBackSpec(s: string, lo: nat, j: nat)
    requires lo <= j <= |s|
    ensures forall k :: SkipSpacesBack(s, lo, j) <= k < j ==> IsSpace(s[k])
    ensures lo < SkipSpacesBack(s, lo, j) ==> !IsSpace(s[SkipSpacesBack(s, lo, j) - 1])
    decreases j
  {
    if lo < j && IsSpace(s[j - 1]) {
      SkipSpacesBackSpec(s, lo, j - 1);
    }
  }

  /** The text before and after the trimmed slice is white space. */
  lemma TrimDropsSpaces(s: string)
    ensures var a := SkipSpaces(s, 0);
      AllSpaces(s[..a]) && AllSpaces(s[SkipSpacesBack(s, a, |s|)..])
  {
    var a := SkipSpaces(s, 0);
    var b := SkipSpacesBack(s, a, |s|);
    SkipSpacesSpec(s, 0);
    SkipSpacesBackSpec(s, a, |s|);
    assert forall k :: 0 <= k < a ==> s[..a][k] == s[k];
    assert forall k :: 0 <= k < |s| - b ==> s[b..][k] == s[b + k];
  }

  /** Trimming takes a slice of s, leaves no white space at either end, and
      drops only white space; it empties exactly the all-blank strings. */
  lemma TrimSpec(s: string)
    ensures exists i :: SliceAt(s, i, Trim(s)) && AllSpaces(s[..i]) && AllSpaces(s[i + |Trim(s)|..])
    ensures Trim(s) != [] ==> !IsSpace(Trim(s)[0]) && !IsSpace(Trim(s)[|Trim(s)| - 1])
    ensures Trim(s) == [] <==> AllSpaces(s)
  {
    var a := SkipSpaces(s, 0);
    var b := SkipSpacesBack(s, a, |s|);
    SkipSpacesSpec(s, 0);
    SkipSpacesBackSpec(s, a, |s|);
    assert SliceAt(s, a, Trim(s));
    TrimDropsSpaces(s);
    if Trim(s) != [] {
      assert Trim(s)[0] == s[a];
      assert Trim(s)[|Trim(s)| - 1] == s[b - 1];
    }
  }

  /** Trimming twice is trimming once. */
  lemma TrimIdempotent(s: string)
    ensures Trim(Trim(s)) == Trim(s)
  {
    var t := Trim(s);
    TrimSpec(s);
    if t != [] {
      assert !IsSpace(t[0]);
      assert SkipSpaces(t, 0) == 0;
      assert !IsSpace(t[|t| - 1]);
      assert SkipSpacesBack(t, 0, |t|) == |t|;
      assert t[0..|t|] == t;
    }
  }

  /** The character classes that the regular expressions of the link
      rewriter and of the sheet-name extraction use. */
  datatype CharClass =
    | RefChars      // [^|\]]
    | CaptionChars  // [^\]]
    | Digits        // \d
    | NameChars     // [a-zA-Z0-9_.]

  predicate InClass(c: char, cls: CharClass)
  {
    match cls
    case RefChars => c != '|' && c != ']'
    case CaptionChars => c != ']'
    case Digits => IsDigit(c)
    case NameChars => IsNameChar(c)
  }

  /** The end of the greedy run of `cls` characters starting at i. */
  function RunEnd(s: string, i: nat, cls: CharClass): (j: nat)
    requires i <= |s|
    ensures i <= j <= |s|
    decreases |s| - i
  {
    if i < |s| && InClass(s[i], cls) then RunEnd(s, i + 1, cls) else i
  }

  // ---------------------------------------------------------------------
  // Greedy runs: the run is maximal, and a run that stops at b ends at b.

  lemma {:induction false} RunIsMaximal(s: string, i: nat, cls: CharClass)
    requires i <= |s|
    ensures forall k :: i <= k < RunEnd(s, i, cls) ==> InClass(s[k], cls)
    ensures RunEnd(s, i, cls) < |s| ==> !InClass(s[RunEnd(s, i, cls)], cls)
    decreases |s| - i
  {
    if i < |s| && InClass(s[i], cls) {
      RunIsMaximal(s, i + 1, cls);
    }
  }

  lemma {:induction false} RunEndsAt(s: string, i: nat, b: nat, cls: CharClass)
    requires i <= b <= |s|
    requires forall k :: i <= k < b ==> InClass(s[k], cls)
    requires b < |s| ==> !InClass(s[b], cls)
    ensures RunEnd(s, i, cls) == b
    decreases b - i
  {
    if i < b {
      RunEndsAt(s, i + 1, b, cls);
    }
  }
}
