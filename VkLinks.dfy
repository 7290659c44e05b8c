/** The VK-markup hyperlink rewriter `processVkLinks`: every `[ref|caption]`
    becomes the Telegram Markdown link `[caption](url)`.

    `processVkLinks` runs one global replace with the regular expression
    `\[([^|\]]+)\|([^\]]+)\]`.  At a given position that expression has at
    most one match: the first group's class excludes `|`, so the group must
    end exactly where its greedy run ends, and the second group's class
    excludes `]`, so it too ends where its run ends.  The replace is therefore
    the left-to-right scan `Scan` below: at each position either a match
    starts there and is replaced, or one character is copied. */
module VkLinks {
  import opened Wrappers
  import opened Text

  const VkBase: string := "https://vk.com/"

  /** A match in s: the `[` at start, the `|` at bar and the `]` at close. */
  datatype Link = Link(start: nat, bar: nat, close: nat)

  /** The match of the expression that starts at position i of s, if any. */
  function LinkAt(s: string, i: nat): (r: Option<Link>)
    requires i <= |s|
    ensures r.Some? ==> r.value.start == i < r.value.bar < r.value.close < |s|
  {
    if i == |s| || s[i] != '[' then None
    else
      var j := RunEnd(s, i + 1, RefChars);
      if j == i + 1 || j == |s| || s[j] != '|' then None
      else
        var k := RunEnd(s, j + 1, CaptionChars);
        if k == j + 1 || k == |s| then None
        else Some(Link(i, j, k))
  }

  /** The two captured groups of a match. */
  function RefOf(s: string, l: Link): string
    requires l.start < l.bar < l.close < |s|
  {
    s[l.start + 1..l.bar]
  }

  function CaptionOf(s: string, l: Link): string
    requires l.start < l.bar < l.close < |s|
  {
    s[l.bar + 1..l.close]
  }

  /** What the two groups of the expression accept. */
  predicate WellFormed(ref: string, caption: string)
  {
    && |ref| > 0 && (forall k :: 0 <= k < |ref| ==> InClass(ref[k], RefChars))
    && |caption| > 0 && (forall k :: 0 <= k < |caption| ==> InClass(caption[k], CaptionChars))
  }

  /** The VK markup text of a link. */
  function Markup(ref: string, caption: string): string
  {
    "[" + ref + "|" + caption + "]"
  }

  /** `^(id|club|public|event)\d+$`, one alternative at a time. */
  predicate DigitsAfter(s: string, prefix: string)
  {
    |s| > |prefix| && StartsWith(s, prefix) && RunEnd(s, |prefix|, Digits) == |s|
  }

  /** `^wall-?\d+_\d+$`.  When a `-` follows `wall` the optional group takes
      it: leaving it out would make `\d+` start at a `-`.  The first `\d+`
      can only end where its run ends, since `_` is not a digit. */
  predicate IsWallRef(s: string)
  {
    && StartsWith(s, "wall")
    && var p := if |s| > 4 && s[4] == '-' then 5 else 4;
       var u := RunEnd(s, p, Digits);
       p < u < |s| - 1 && s[u] == '_' && RunEnd(s, u + 1, Digits) == |s|
  }

  /** The short identifiers of the first branch of the URL rule. */
  predicate IsShortIdRef(ref: string)
  {
    || DigitsAfter(ref, "id") || DigitsAfter(ref, "club")
    || DigitsAfter(ref, "public") || DigitsAfter(ref, "event")
    || IsWallRef(ref)
  }

  /** `^[a-zA-Z0-9_.]+$`: a bare screen name such as `durov`. */
  predicate IsScreenName(ref: string)
  {
    |ref| > 0 && RunEnd(ref, 0, NameChars) == |ref|
  }

  /** The URL a reference resolves to; anything else is used verbatim. */
  function ResolveUrl(ref: string): (r: string)
    ensures |ref| <= |r| && r[|r| - |ref|..] == ref
  {
    if IsShortIdRef(ref) then VkBase + ref
    else if IsScreenName(ref) then VkBase + ref
    else ref
  }

  /** The replacement the callback returns for one match. */
  function Render(ref: string, caption: string): string
  {
    "[" + Trim(caption) + "](" + ResolveUrl(ref) + ")"
  }

  /** One step of the global replace: a character copied as it is, or a
      match replaced by the callback's result. */
  datatype Piece = Copied(c: char) | Replaced(ref: string, caption: string)

  /** The pieces the global replace produces, scanning s from position i. */
  function Scan(s: string, i: nat): seq<Piece>
    requires i <= |s|
    decreases |s| - i
  {
    if i == |s| then []
    else
      match LinkAt(s, i)
      case Some(l) => [Replaced(RefOf(s, l), CaptionOf(s, l))] + Scan(s, l.close + 1)
      case None => [Copied(s[i])] + Scan(s, i + 1)
  }

  function PieceText(p: Piece): string
  {
    match p
    case Copied(c) => [c]
    case Replaced(ref, caption) => Render(ref, caption)
  }

  /** The text the pieces spell out. */
  function Emit(ps: seq<Piece>): string
  {
    if ps == [] then [] else PieceText(ps[0]) + Emit(ps[1..])
  }

  /** Every character of t, copied. */
  function Copies(t: string): (ps: seq<Piece>)
    ensures |ps| == |t| && forall k :: 0 <= k < |t| ==> ps[k] == Copied(t[k])
  {
    seq(|t|, k requires 0 <= k < |t| => Copied(t[k]))
  }

  /** `processVkLinks(text)`: empty (or absent) text is returned as it is. */
  function ProcessVkLinks(text: string): (r: string)
    ensures text == [] ==> r == text
  {
    if text == [] then text else Emit(Scan(text, 0))
  }

  /** Some position of s at or after i starts a `[ref|caption]` match. */
  predicate HasLinkFrom(s: string, i: nat)
  {
    exists k :: i <= k < |s| && LinkAt(s, k).Some?
  }

  predicate HasLink(s: string)
  {
    HasLinkFrom(s, 0)
  }

  /** No match starts at a position in [i, n). */
  predicate NoLinkBetween(s: string, i: nat, n: nat)
    requires n <= |s|
  {
    forall k :: i <= k < n ==> LinkAt(s, k).None?
  }

  // ---------------------------------------------------------------------
  // Small facts about slices and concatenation.

  lemma SliceCons(s: string, i: nat)
    requires i < |s|
    ensures s[i..] == [s[i]] + s[i + 1..]
  {
  }

  lemma SliceSplit(s: string, a: nat, b: nat, c: nat)
    requires a <= b <= c <= |s|
    ensures s[a..c] == s[a..b] + s[b..c]
  {
  }

  lemma ConsInjective(c: char, x: string, y: string)
    ensures [c] + x == [c] + y <==> x == y
  {
    if [c] + x == [c] + y {
      assert x == ([c] + x)[1..];
    }
  }

  lemma SliceOfSlice(s: string, i: nat, j: nat, x: nat, y: nat)
    requires i <= j <= |s| && x <= y <= j - i
    ensures s[i..j][x..y] == s[i + x..i + y]
  {
    assert forall k :: 0 <= k < y - x ==> s[i..j][x..y][k] == s[i + x + k];
  }

  /** Two strings that differ at position k stay different whatever follows
      the first one. */
  lemma DifferAt(x: string, rest: string, y: string, k: nat)
    requires k < |x| && k < |y| && x[k] != y[k]
    ensures x + rest != y
  {
    assert (x + rest)[k] == x[k];
  }

  /** Every position of s[a..b] is in cls. */
  lemma SliceInClass(s: string, a: nat, b: nat, cls: CharClass)
    requires a <= b <= |s|
    requires forall k :: 0 <= k < b - a ==> InClass(s[a..b][k], cls)
    ensures forall k :: a <= k < b ==> InClass(s[k], cls)
  {
    forall k | a <= k < b
      ensures InClass(s[k], cls)
    {
      assert s[k] == s[a..b][k - a];
    }
  }

  // ---------------------------------------------------------------------
  // A match is exactly the markup of two well-formed groups, and such
  // markup is always matched as a whole, with exactly those groups.

  /** Where the parts of `[ref|caption]` sit. */
  lemma MarkupLayout(ref: string, caption: string)
    ensures var m := Markup(ref, caption);
      && |m| == |ref| + |caption| + 3
      && m[0] == '[' && m[|ref| + 1] == '|' && m[|m| - 1] == ']'
      && m[1..|ref| + 1] == ref && m[|ref| + 2..|m| - 1] == caption
  {
    var m := Markup(ref, caption);
    assert m == "[" + ref + "|" + caption + "]";
    assert m[1..|ref| + 1] == ref;
    assert m[|ref| + 2..|m| - 1] == caption;
  }

  /** The groups of a match are what the two classes accept. */
  lemma LinkAtGroups(s: string, i: nat)
    requires i <= |s| && LinkAt(s, i).Some?
    ensures var l := LinkAt(s, i).value; WellFormed(RefOf(s, l), CaptionOf(s, l))
  {
    var l := LinkAt(s, i).value;
    RunIsMaximal(s, i + 1, RefChars);
    RunIsMaximal(s, l.bar + 1, CaptionChars);
    var ref, caption := RefOf(s, l), CaptionOf(s, l);
    assert forall k :: 0 <= k < |ref| ==> ref[k] == s[i + 1 + k];
    assert forall k :: 0 <= k < |caption| ==> caption[k] == s[l.bar + 1 + k];
  }

  /** The character at position k of `[ref|caption]`. */
  lemma MarkupIndex(ref: string, caption: string, k: nat)
    requires k < |Markup(ref, caption)|
    ensures Markup(ref, caption)[k] ==
      if k == 0 then '['
      else if k <= |ref| then ref[k - 1]
      else if k == |ref| + 1 then '|'
      else if k < |ref| + |caption| + 2 then caption[k - |ref| - 2]
      else ']'
  {
  }

  /** The text of a match is the markup of its groups. */
  lemma LinkAtMarkup(s: string, i: nat)
    requires i <= |s| && LinkAt(s, i).Some?
    ensures var l := LinkAt(s, i).value;
      s[i..l.close + 1] == Markup(RefOf(s, l), CaptionOf(s, l))
  {
    var l := LinkAt(s, i).value;
    RunIsMaximal(s, l.bar + 1, CaptionChars);
    var ref, caption := RefOf(s, l), CaptionOf(s, l);
    var m := Markup(ref, caption);
    forall k | 0 <= k < |m|
      ensures m[k] == s[i + k]
    {
      MarkupIndex(ref, caption, k);
    }
    assert m == s[i..l.close + 1];
  }

  /** Copying the markup into s at i puts its parts at these positions. */
  lemma MarkupAt(s: string, i: nat, ref: string, caption: string)
    requires i + |Markup(ref, caption)| <= |s|
    requires s[i..i + |Markup(ref, caption)|] == Markup(ref, caption)
    ensures var bar, close := i + 1 + |ref|, i + 2 + |ref| + |caption|;
      && s[i] == '[' && s[bar] == '|' && s[close] == ']'
      && s[i + 1..bar] == ref && s[bar + 1..close] == caption
  {
    var m := Markup(ref, caption);
    MarkupLayout(ref, caption);
    var bar := i + 1 + |ref|;
    var close := bar + 1 + |caption|;
    assert s[i..i + |m|][0] == s[i];
    assert s[i..i + |m|][|ref| + 1] == s[bar];
    assert s[i..i + |m|][|m| - 1] == s[close];
    SliceOfSlice(s, i, i + |m|, 1, |ref| + 1);
    SliceOfSlice(s, i, i + |m|, |ref| + 2, |m| - 1);
  }

  lemma MarkupIsMatched(s: string, i: nat, ref: string, caption: string)
    requires WellFormed(ref, caption)
    requires i + |Markup(ref, caption)| <= |s|
    requires s[i..i + |Markup(ref, caption)|] == Markup(ref, caption)
    ensures LinkAt(s, i) == Some(Link(i, i + 1 + |ref|, i + 2 + |ref| + |caption|))
    ensures RefOf(s, LinkAt(s, i).value) == ref && CaptionOf(s, LinkAt(s, i).value) == caption
  {
    MarkupAt(s, i, ref, caption);
    var bar := i + 1 + |ref|;
    var close := i + 2 + |ref| + |caption|;
    SliceInClass(s, i + 1, bar, RefChars);
    RunEndsAt(s, i + 1, bar, RefChars);
    assert s[bar + 1..close] == caption;
    assert forall k :: 0 <= k < close - (bar + 1) ==> s[bar + 1..close][k] == caption[k];
    SliceInClass(s, bar + 1, close, CaptionChars);
    RunEndsAt(s, bar + 1, close, CaptionChars);
  }

  /** No character strictly inside a match is a `]`. */
  lemma MarkupHasNoInnerClose(ref: string, caption: string, k: int)
    requires WellFormed(ref, caption)
    requires 1 <= k < |Markup(ref, caption)| - 1
    ensures Markup(ref, caption)[k] != ']'
  {
    var m := Markup(ref, caption);
    if k <= |ref| {
      assert m[k] == ref[k - 1];
    } else if k > |ref| + 1 {
      assert m[k] == caption[k - |ref| - 2];
    }
  }

  // ---------------------------------------------------------------------
  // Spelling out pieces distributes over concatenation, and copied
  // characters spell themselves.

  lemma EmitCons(p: Piece, rest: seq<Piece>)
    ensures Emit([p] + rest) == PieceText(p) + Emit(rest)
  {
    assert ([p] + rest)[0] == p;
    assert ([p] + rest)[1..] == rest;
  }

  lemma {:induction false} EmitAppend(a: seq<Piece>, b: seq<Piece>)
    ensures Emit(a + b) == Emit(a) + Emit(b)
    decreases |a|
  {
    if a == [] {
      assert a + b == b;
    } else {
      assert a + b == [a[0]] + (a[1..] + b);
      EmitCons(a[0], a[1..] + b);
      EmitAppend(a[1..], b);
    }
  }

  lemma {:induction false} EmitCopies(t: string)
    ensures Emit(Copies(t)) == t
    decreases |t|
  {
    if t != [] {
      assert Copies(t) == [Copied(t[0])] + Copies(t[1..]);
      EmitCons(Copied(t[0]), Copies(t[1..]));
      EmitCopies(t[1..]);
      assert t == [t[0]] + t[1..];
    }
  }

  // ---------------------------------------------------------------------
  // One step of the scan, at a match and at a plain character.

  lemma ScanAtLink(s: string, i: nat)
    requires i < |s| && LinkAt(s, i).Some?
    ensures var l := LinkAt(s, i).value;
      Scan(s, i) == [Replaced(RefOf(s, l), CaptionOf(s, l))] + Scan(s, l.close + 1)
  {
  }

  lemma ScanAtPlain(s: string, i: nat)
    requires i < |s| && LinkAt(s, i).None?
    ensures Scan(s, i) == [Copied(s[i])] + Scan(s, i + 1)
  {
  }

  // ---------------------------------------------------------------------
  // Text outside matches is preserved.

  lemma {:induction false} PlainPreserved(s: string, i: nat, n: nat)
    requires i <= n <= |s| && NoLinkBetween(s, i, n)
    ensures Scan(s, i) == Copies(s[i..n]) + Scan(s, n)
    decreases n - i
  {
    if i < n {
      ScanAtPlain(s, i);
      PlainPreserved(s, i + 1, n);
      CopiesCons(s, i, n);
      ConsChain(Scan(s, i), Copied(s[i]), Scan(s, i + 1), Copies(s[i + 1..n]), Scan(s, n), Copies(s[i..n]));
    }
  }

  lemma CopiesCons(s: string, i: nat, n: nat)
    requires i < n <= |s|
    ensures Copies(s[i..n]) == [Copied(s[i])] + Copies(s[i + 1..n])
  {
    assert Copies(s[i..n]) == [Copied(s[i])] + Copies(s[i + 1..n]);
  }

  /** Regrouping `[c] + (a + z)` as `([c] + a) + z`. */
  lemma ConsChain(x: seq<Piece>, c: Piece, y: seq<Piece>, a: seq<Piece>, z: seq<Piece>, w: seq<Piece>)
    requires x == [c] + y && y == a + z && w == [c] + a
    ensures x == w + z
  {
  }

  /** A stretch without `[` starts no match. */
  lemma NoBracketNoLink(s: string, i: nat, n: nat)
    requires i <= n <= |s|
    requires forall k :: i <= k < n ==> s[k] != '['
    ensures NoLinkBetween(s, i, n)
  {
  }

  /** Markup at position n of s is scanned as one replaced piece. */
  lemma ScanAtMarkup(s: string, n: nat, ref: string, caption: string)
    requires WellFormed(ref, caption)
    requires n + |Markup(ref, caption)| <= |s|
    requires s[n..n + |Markup(ref, caption)|] == Markup(ref, caption)
    ensures Scan(s, n) == [Replaced(ref, caption)] + Scan(s, n + |Markup(ref, caption)|)
  {
    MarkupIsMatched(s, n, ref, caption);
    ScanAtLink(s, n);
  }

  /** A `[`-free stretch at the end of s is copied. */
  lemma ScanOfPlainTail(s: string, i: nat)
    requires i <= |s|
    requires forall k :: i <= k < |s| ==> s[k] != '['
    ensures Scan(s, i) == Copies(s[i..])
  {
    NoBracketNoLink(s, i, |s|);
    PlainPreserved(s, i, |s|);
    assert s[i..|s|] == s[i..];
  }

  /** The pieces of a text made of one markup between two `[`-free parts. */
  lemma ScanOfSingleLink(pre: string, ref: string, caption: string, post: string)
    requires forall k :: 0 <= k < |pre| ==> pre[k] != '['
    requires forall k :: 0 <= k < |post| ==> post[k] != '['
    requires WellFormed(ref, caption)
    ensures Scan(pre + Markup(ref, caption) + post, 0)
         == Copies(pre) + ([Replaced(ref, caption)] + Copies(post))
  {
    var m := Markup(ref, caption);
    var s := pre + m + post;
    var n := |pre|;
    var after := n + |m|;
    assert s[..n] == pre && s[n..after] == m && s[after..] == post;
    NoBracketNoLink(s, 0, n);
    PlainPreserved(s, 0, n);
    ScanAtMarkup(s, n, ref, caption);
    ScanOfPlainTail(s, after);
  }

  /** A match becomes `[trim(caption)](url)` and the text around it, here
      free of `[`, is kept as it is. */
  lemma SingleLinkRewritten(pre: string, ref: string, caption: string, post: string)
    requires forall k :: 0 <= k < |pre| ==> pre[k] != '['
    requires forall k :: 0 <= k < |post| ==> post[k] != '['
    requires WellFormed(ref, caption)
    ensures ProcessVkLinks(pre + Markup(ref, caption) + post) == pre + Render(ref, caption) + post
  {
    ScanOfSingleLink(pre, ref, caption, post);
    EmitAppend(Copies(pre), [Replaced(ref, caption)] + Copies(post));
    EmitCopies(pre);
    EmitCons(Replaced(ref, caption), Copies(post));
    EmitCopies(post);
  }

  // ---------------------------------------------------------------------
  // The scan of a text's tail does not depend on what precedes it, once the
  // scan has reached the tail.

  lemma {:induction false} RunEndShift(s: string, n: nat, b: string, k: nat, cls: CharClass)
    requires n <= |s| && s[n..] == b && k <= |b|
    ensures RunEnd(s, n + k, cls) == n + RunEnd(b, k, cls)
    decreases |b| - k
  {
    if k < |b| {
      assert s[n + k] == b[k];
      if InClass(b[k], cls) {
        RunEndShift(s, n, b, k + 1, cls);
      }
    }
  }

  lemma SliceShift(s: string, n: nat, b: string, x: nat, y: nat)
    requires n <= |s| && s[n..] == b && x <= y <= |b|
    ensures s[n + x..n + y] == b[x..y]
  {
    assert forall k :: 0 <= k < y - x ==> s[n + x..n + y][k] == b[x..y][k];
  }

  /** A match in the tail b of s is the same match, moved by n, in s. */
  lemma LinkAtShift(s: string, n: nat, b: string, k: nat, l: Link)
    requires n <= |s| && s[n..] == b && k <= |b| && LinkAt(b, k) == Some(l)
    ensures LinkAt(s, n + k) == Some(Link(n + l.start, n + l.bar, n + l.close))
  {
    assert s[n + k] == b[k];
    RunEndShift(s, n, b, k + 1, RefChars);
    assert s[n + l.bar] == b[l.bar];
    RunEndShift(s, n, b, l.bar + 1, CaptionChars);
  }

  /** Where no match starts in b, none starts at the same place in s. */
  lemma NoLinkAtShift(s: string, n: nat, b: string, k: nat)
    requires n <= |s| && s[n..] == b && k <= |b| && LinkAt(b, k).None?
    ensures LinkAt(s, n + k).None?
  {
    if k < |b| && b[k] == '[' {
      assert s[n + k] == b[k];
      RunEndShift(s, n, b, k + 1, RefChars);
      var j := RunEnd(b, k + 1, RefChars);
      if j != k + 1 && j < |b| && b[j] == '|' {
        assert s[n + j] == b[j];
        RunEndShift(s, n, b, j + 1, CaptionChars);
      } else if j < |b| {
        assert s[n + j] == b[j];
      }
    } else if k < |b| {
      assert s[n + k] == b[k];
    }
  }

  /** The groups of a match, moved by n into s, are the groups in b. */
  lemma GroupsShift(s: string, n: nat, b: string, l: Link)
    requires n <= |s| && s[n..] == b && l.start < l.bar < l.close < |b|
    ensures RefOf(s, Link(n + l.start, n + l.bar, n + l.close)) == RefOf(b, l)
    ensures CaptionOf(s, Link(n + l.start, n + l.bar, n + l.close)) == CaptionOf(b, l)
  {
    SliceShift(s, n, b, l.start + 1, l.bar);
    SliceShift(s, n, b, l.bar + 1, l.close);
  }

  /** Two texts whose matches at i and k have the same groups, and whose
      scans agree after those matches, agree from i and k. */
  lemma SameLinkStep(s: string, i: nat, l: Link, b: string, k: nat, m: Link)
    requires i < |s| && LinkAt(s, i) == Some(l)
    requires k < |b| && LinkAt(b, k) == Some(m)
    requires RefOf(s, l) == RefOf(b, m) && CaptionOf(s, l) == CaptionOf(b, m)
    requires Scan(s, l.close + 1) == Scan(b, m.close + 1)
    ensures Scan(s, i) == Scan(b, k)
  {
    ScanAtKnownLink(s, i, l);
    ScanAtKnownLink(b, k, m);
    SameStep(Scan(s, i), Scan(b, k), Replaced(RefOf(b, m), CaptionOf(b, m)), Scan(s, l.close + 1), Scan(b, m.close + 1));
  }

  lemma ScanAtKnownLink(s: string, i: nat, l: Link)
    requires i < |s| && LinkAt(s, i) == Some(l)
    ensures Scan(s, i) == [Replaced(RefOf(s, l), CaptionOf(s, l))] + Scan(s, l.close + 1)
  {
  }

  lemma SameStep(x: seq<Piece>, y: seq<Piece>, p: Piece, xs: seq<Piece>, ys: seq<Piece>)
    requires x == [p] + xs && y == [p] + ys && xs == ys
    ensures x == y
  {
  }

  lemma ShiftLinkCase(s: string, n: nat, b: string, k: nat, l: Link)
    requires n <= |s| && s[n..] == b && k < |b| && LinkAt(b, k) == Some(l)
    requires Scan(s, n + (l.close + 1)) == Scan(b, l.close + 1)
    ensures Scan(s, n + k) == Scan(b, k)
  {
    LinkAtShift(s, n, b, k, l);
    GroupsShift(s, n, b, l);
    SameLinkStep(s, n + k, Link(n + l.start, n + l.bar, n + l.close), b, k, l);
  }

  /** Two texts with the same character and no match at i and k, whose
      scans agree after it, agree from i and k. */
  lemma SamePlainStep(s: string, i: nat, si: nat, b: string, k: nat, bi: nat)
    requires i < |s| && LinkAt(s, i).None? && si == i + 1
    requires k < |b| && LinkAt(b, k).None? && bi == k + 1
    requires s[i] == b[k] && Scan(s, si) == Scan(b, bi)
    ensures Scan(s, i) == Scan(b, k)
  {
    ScanAtPlain(s, i);
    ScanAtPlain(b, k);
  }

  lemma ShiftPlainCase(s: string, n: nat, b: string, k: nat)
    requires n <= |s| && s[n..] == b && k < |b| && LinkAt(b, k).None?
    requires Scan(s, n + (k + 1)) == Scan(b, k + 1)
    ensures Scan(s, n + k) == Scan(b, k)
  {
    NoLinkAtShift(s, n, b, k);
    assert s[n + k] == b[k];
    SamePlainStep(s, n + k, n + (k + 1), b, k, k + 1);
  }

  /** Where the scan resumes after position i. */
  function Resume(s: string, i: nat): (r: nat)
    requires i < |s|
    ensures i < r <= |s|
  {
    match LinkAt(s, i)
    case Some(l) => l.close + 1
    case None => i + 1
  }

  lemma ResumeAtLink(s: string, n: nat, b: string, k: nat, l: Link)
    requires n + |b| == |s| && k < |b| && LinkAt(b, k) == Some(l)
    requires Scan(s, n + Resume(b, k)) == Scan(b, Resume(b, k))
    ensures Scan(s, n + (l.close + 1)) == Scan(b, l.close + 1)
  {
  }

  lemma ResumeAtPlain(s: string, n: nat, b: string, k: nat)
    requires n + |b| == |s| && k < |b| && LinkAt(b, k).None?
    requires Scan(s, n + Resume(b, k)) == Scan(b, Resume(b, k))
    ensures Scan(s, n + (k + 1)) == Scan(b, k + 1)
  {
  }

  lemma ShiftStep(s: string, n: nat, b: string, k: nat)
    requires n <= |s| && s[n..] == b && k < |b|
    requires Scan(s, n + Resume(b, k)) == Scan(b, Resume(b, k))
    ensures Scan(s, n + k) == Scan(b, k)
  {
    if LinkAt(b, k).Some? {
      var l := LinkAt(b, k).value;
      ResumeAtLink(s, n, b, k, l);
      ShiftLinkCase(s, n, b, k, l);
    } else {
      ResumeAtPlain(s, n, b, k);
      ShiftPlainCase(s, n, b, k);
    }
  }

  /** Scanning the tail b of s from k is scanning s from n + k. */
  lemma {:induction false} ScanShift(s: string, n: nat, b: string, k: nat)
    requires n <= |s| && s[n..] == b && k <= |b|
    ensures Scan(s, n + k) == Scan(b, k)
    decreases |b| - k
  {
    if k < |b| {
      ScanShift(s, n, b, Resume(b, k));
      ShiftStep(s, n, b, k);
    }
  }

  /** The pieces of a text whose first match, of piece p, runs from n to e:
      copies up to it, p, then the pieces of the rest scanned on its own. */
  lemma ScanOfFirstLink(s: string, n: nat, e: nat, p: Piece)
    requires n <= e <= |s|
    requires NoLinkBetween(s, 0, n)
    requires Scan(s, n) == [p] + Scan(s, e)
    ensures Scan(s, 0) == Copies(s[0..n]) + ([p] + Scan(s[e..], 0))
  {
    PlainPreserved(s, 0, n);
    ScanTail(s, e);
    FirstLinkChain(s, n, e, p);
  }

  lemma FirstLinkChain(s: string, n: nat, e: nat, p: Piece)
    requires n <= e <= |s|
    requires Scan(s, 0) == Copies(s[0..n]) + Scan(s, n)
    requires Scan(s, n) == [p] + Scan(s, e)
    requires Scan(s, e) == Scan(s[e..], 0)
    ensures Scan(s, 0) == Copies(s[0..n]) + ([p] + Scan(s[e..], 0))
  {
  }

  /** The scan of s from e is the scan of s[e..] from its start. */
  lemma ScanTail(s: string, e: nat)
    requires e <= |s|
    ensures Scan(s, e) == Scan(s[e..], 0)
  {
    ScanShift(s, e, s[e..], 0);
  }

  lemma ThreeParts(a: string, m: string, c: string)
    ensures (a + m + c)[0..|a|] == a
    ensures (a + m + c)[|a|..|a| + |m|] == m
    ensures (a + m + c)[|a| + |m|..] == c
  {
  }

  /** A match becomes `[trim(caption)](url)`, the text before it, where no
      match starts, is kept as it is, and the text after it is rewritten on
      its own. */
  lemma LinkRewritten(pre: string, ref: string, caption: string, rest: string)
    requires NoLinkBetween(pre + Markup(ref, caption) + rest, 0, |pre|)
    requires WellFormed(ref, caption)
    ensures ProcessVkLinks(pre + Markup(ref, caption) + rest) == pre + Render(ref, caption) + ProcessVkLinks(rest)
  {
    ScanOfMarkedText(pre, ref, caption, rest);
    EmitOfMarkedText(pre, ref, caption, Scan(rest, 0));
    assert |pre + Markup(ref, caption) + rest| > 0;
  }

  lemma ScanOfMarkedText(pre: string, ref: string, caption: string, rest: string)
    requires NoLinkBetween(pre + Markup(ref, caption) + rest, 0, |pre|)
    requires WellFormed(ref, caption)
    ensures Scan(pre + Markup(ref, caption) + rest, 0) == Copies(pre) + ([Replaced(ref, caption)] + Scan(rest, 0))
  {
    ThreeParts(pre, Markup(ref, caption), rest);
    ScanOfSplit(pre + Markup(ref, caption) + rest, |pre|, |pre| + |Markup(ref, caption)|, pre, ref, caption, rest);
  }

  /** The same, for a text s cut at n and e into pre, the markup and rest. */
  lemma ScanOfSplit(s: string, n: nat, e: nat, pre: string, ref: string, caption: string, rest: string)
    requires WellFormed(ref, caption)
    requires e == n + |Markup(ref, caption)| <= |s|
    requires s[0..n] == pre && s[n..e] == Markup(ref, caption) && s[e..] == rest
    requires NoLinkBetween(s, 0, n)
    ensures Scan(s, 0) == Copies(pre) + ([Replaced(ref, caption)] + Scan(rest, 0))
  {
    ScanAtMarkup(s, n, ref, caption);
    ScanOfFirstLink(s, n, e, Replaced(ref, caption));
  }

  lemma EmitOfMarkedText(pre: string, ref: string, caption: string, tail: seq<Piece>)
    ensures Emit(Copies(pre) + ([Replaced(ref, caption)] + tail)) == pre + Render(ref, caption) + Emit(tail)
  {
    EmitAppend(Copies(pre), [Replaced(ref, caption)] + tail);
    EmitCopies(pre);
    EmitCons(Replaced(ref, caption), tail);
  }

  // ---------------------------------------------------------------------
  // The text is returned unchanged exactly when it contains no match.

  /** The replacement is a Telegram Markdown link: `[`, the trimmed
      caption, `](`, the resolved URL and `)`, each at its place. */
  lemma RenderShape(ref: string, caption: string)
    ensures var r, t, u := Render(ref, caption), Trim(caption), ResolveUrl(ref);
      && |r| == |t| + |u| + 4
      && r[0] == '[' && r[1..1 + |t|] == t && r[1 + |t|..3 + |t|] == "]("
      && r[3 + |t|..|r| - 1] == u && r[|r| - 1] == ')'
  {
    var t, u := Trim(caption), ResolveUrl(ref);
    var r := Render(ref, caption);
    assert r == "[" + t + "](" + u + ")";
    assert r[1..1 + |t|] == t;
    assert r[3 + |t|..|r| - 1] == u;
  }

  /** The replacement has a `]` right after the trimmed caption. */
  lemma RenderCloseAt(ref: string, caption: string)
    ensures 1 + |Trim(caption)| < |Render(ref, caption)|
    ensures Render(ref, caption)[1 + |Trim(caption)|] == ']'
  {
  }

  /** Inside a match, right after the trimmed caption's length, the text
      has no `]`. */
  lemma NoCloseInMatch(s: string, i: nat)
    requires i < |s| && LinkAt(s, i).Some?
    ensures var n := |Trim(CaptionOf(s, LinkAt(s, i).value))|;
      1 + n < |s[i..]| && s[i..][1 + n] != ']'
  {
    var l := LinkAt(s, i).value;
    var ref, caption := RefOf(s, l), CaptionOf(s, l);
    var n := |Trim(caption)|;
    LinkAtGroups(s, i);
    LinkAtMarkup(s, i);
    MarkupHasNoInnerClose(ref, caption, 1 + n);
    assert s[i..][1 + n] == s[i..l.close + 1][1 + n];
  }

  /** The output from a match is its replacement, then the output of the
      rest. */
  lemma EmitAtLink(s: string, i: nat)
    requires i < |s| && LinkAt(s, i).Some?
    ensures var l := LinkAt(s, i).value;
      Emit(Scan(s, i)) == Render(RefOf(s, l), CaptionOf(s, l)) + Emit(Scan(s, l.close + 1))
  {
    var l := LinkAt(s, i).value;
    ScanAtLink(s, i);
    EmitCons(Replaced(RefOf(s, l), CaptionOf(s, l)), Scan(s, l.close + 1));
  }

  /** Replacing a match changes the text, since the markup has no `]` at
      that position. */
  lemma MatchChangesText(s: string, i: nat)
    requires i < |s| && LinkAt(s, i).Some?
    ensures Emit(Scan(s, i)) != s[i..]
  {
    var l := LinkAt(s, i).value;
    var ref, caption := RefOf(s, l), CaptionOf(s, l);
    NoCloseInMatch(s, i);
    EmitAtLink(s, i);
    RenderCloseAt(ref, caption);
    DifferAt(Render(ref, caption), Emit(Scan(s, l.close + 1)), s[i..], 1 + |Trim(caption)|);
  }

  /** A position without a match does not change whether one follows. */
  lemma HasLinkStep(s: string, i: nat)
    requires i < |s| && LinkAt(s, i).None?
    ensures HasLinkFrom(s, i) <==> HasLinkFrom(s, i + 1)
  {
    if HasLinkFrom(s, i) {
      var k :| i <= k < |s| && LinkAt(s, k).Some?;
      assert k != i;
    }
  }

  lemma {:induction false} UnchangedFromIffNoLink(s: string, i: nat)
    requires i <= |s|
    ensures Emit(Scan(s, i)) == s[i..] <==> !HasLinkFrom(s, i)
    decreases |s| - i
  {
    if i == |s| {
      return;
    }
    if LinkAt(s, i).Some? {
      MatchChangesText(s, i);
    } else {
      UnchangedFromIffNoLink(s, i + 1);
      ScanAtPlain(s, i);
      EmitCons(Copied(s[i]), Scan(s, i + 1));
      SliceCons(s, i);
      ConsInjective(s[i], Emit(Scan(s, i + 1)), s[i + 1..]);
      HasLinkStep(s, i);
    }
  }

  lemma UnchangedIffNoLink(s: string)
    ensures ProcessVkLinks(s) == s <==> !HasLink(s)
  {
    UnchangedFromIffNoLink(s, 0);
  }

  // ---------------------------------------------------------------------
  // The URL rule and the examples the comments of `processVkLinks` give.

  /** The language of `^<prefix>\d+$`: the prefix, then one digit or more. */
  ghost predicate DigitsLanguage(s: string, prefix: string)
  {
    exists d :: s == prefix + d && |d| > 0 && AllDigits(d)
  }

  /** The language of `^wall-?\d+_\d+$`. */
  ghost predicate WallLanguage(s: string)
  {
    exists sign, x, y :: (sign == "" || sign == "-") && |x| > 0 && |y| > 0 && AllDigits(x) && AllDigits(y)
                         && s == "wall" + sign + x + "_" + y
  }

  /** The language of `^[a-zA-Z0-9_.]+$`. */
  predicate ScreenNameLanguage(s: string)
  {
    |s| > 0 && AllNameChars(s)
  }

  /** The references the first branch of the URL rule accepts. */
  ghost predicate ShortIdLanguage(s: string)
  {
    || DigitsLanguage(s, "id") || DigitsLanguage(s, "club")
    || DigitsLanguage(s, "public") || DigitsLanguage(s, "event")
    || WallLanguage(s)
  }

  /** The greedy-run test of a prefix followed by digits accepts exactly the
      language of `^<prefix>\d+$`. */
  lemma DigitsAfterSpec(s: string, prefix: string)
    ensures DigitsAfter(s, prefix) <==> DigitsLanguage(s, prefix)
  {
    var n := |prefix|;
    if DigitsAfter(s, prefix) {
      var d := s[n..];
      RunIsMaximal(s, n, Digits);
      assert forall k :: 0 <= k < |d| ==> d[k] == s[n + k];
      assert s == s[..n] + d;
    }
    if DigitsLanguage(s, prefix) {
      var d :| s == prefix + d && |d| > 0 && AllDigits(d);
      assert s[..n] == prefix;
      assert forall k :: n <= k < |s| ==> s[k] == d[k - n];
      RunEndsAt(s, n, |s|, Digits);
    }
  }

  lemma ScreenNameSpec(s: string)
    ensures IsScreenName(s) <==> ScreenNameLanguage(s)
  {
    RunIsMaximal(s, 0, NameChars);
    if ScreenNameLanguage(s) {
      RunEndsAt(s, 0, |s|, NameChars);
    }
  }

  /** The parts of a wall reference, at their positions. */
  lemma WallParts(s: string, sign: string, x: string, y: string)
    requires s == "wall" + sign + x + "_" + y
    ensures var p := 4 + |sign|;
      && |s| == p + |x| + 1 + |y|
      && s[..4] == "wall" && s[4..p] == sign
      && (forall k :: 0 <= k < |x| ==> s[p + k] == x[k])
      && s[p + |x|] == '_'
      && (forall k :: 0 <= k < |y| ==> s[p + |x| + 1 + k] == y[k])
  {
    var p := 4 + |sign|;
    assert s == ("wall" + sign) + x + "_" + y;
    assert s[..4] == ("wall" + sign)[..4];
  }

  lemma SplitFive(s: string, a: nat, b: nat, c: nat)
    requires a <= b <= c < |s|
    ensures s == s[..a] + s[a..b] + s[b..c] + s[c..c + 1] + s[c + 1..]
  {
    assert s[..c] == s[..a] + s[a..b] + s[b..c];
    assert s == s[..c] + s[c..c + 1] + s[c + 1..];
  }

  /** A run that ends at the end of s, read from q, is all digits. */
  lemma DigitTail(s: string, q: nat, e: nat)
    requires q <= e <= |s| && RunEnd(s, q, Digits) == e
    ensures AllDigits(s[q..e])
  {
    RunIsMaximal(s, q, Digits);
    assert forall k :: 0 <= k < e - q ==> s[q..e][k] == s[q + k];
  }

  lemma WallRefInLanguage(s: string)
    requires IsWallRef(s)
    ensures WallLanguage(s)
  {
    var p := if |s| > 4 && s[4] == '-' then 5 else 4;
    var u := RunEnd(s, p, Digits);
    DigitTail(s, p, u);
    DigitTail(s, u + 1, |s|);
    assert s[u + 1..|s|] == s[u + 1..];
    var sign, x, y := s[4..p], s[p..u], s[u + 1..];
    assert sign == "" || sign == "-";
    assert s[u..u + 1] == "_";
    assert s[..4] == "wall";
    SplitFive(s, 4, p, u);
    assert s == "wall" + sign + x + "_" + y;
  }

  lemma WallLanguageIsRef(s: string)
    requires WallLanguage(s)
    ensures IsWallRef(s)
  {
    var sign, x, y :| (sign == "" || sign == "-") && |x| > 0 && |y| > 0 && AllDigits(x) && AllDigits(y)
                      && s == "wall" + sign + x + "_" + y;
    WallParts(s, sign, x, y);
    WallFromParts(s, sign, x, y);
  }

  /** The same, from the positions of the parts in s. */
  lemma WallFromParts(s: string, sign: string, x: string, y: string)
    requires (sign == "" || sign == "-") && |x| > 0 && |y| > 0 && AllDigits(x) && AllDigits(y)
    requires var p := 4 + |sign|;
      && |s| == p + |x| + 1 + |y|
      && s[..4] == "wall" && s[4..p] == sign
      && (forall k :: 0 <= k < |x| ==> s[p + k] == x[k])
      && s[p + |x|] == '_'
      && (forall k :: 0 <= k < |y| ==> s[p + |x| + 1 + k] == y[k])
    ensures IsWallRef(s)
  {
    var p := 4 + |sign|;
    assert StartsWith(s, "wall");
    assert (if |s| > 4 && s[4] == '-' then 5 else 4) == p by {
      if sign == "" {
        assert s[4] == x[0];
      } else {
        assert s[4] == s[4..p][0];
      }
    }
    forall k | p <= k < p + |x|
      ensures InClass(s[k], Digits)
    {
      assert s[p + (k - p)] == x[k - p];
    }
    var q := p + |x| + 1;
    forall k | q <= k < |s|
      ensures InClass(s[k], Digits)
    {
      var j := k - q;
      assert s[p + |x| + 1 + j] == y[j];
    }
    WallFromPositions(s, p, p + |x|);
  }

  /** A text read as `wall`, an optional `-`, digits from p to u, `_` at u
      and digits to its end is a wall reference. */
  lemma WallFromPositions(s: string, p: nat, u: nat)
    requires StartsWith(s, "wall") && (if |s| > 4 && s[4] == '-' then 5 else 4) == p
    requires p < u < |s| - 1 && s[u] == '_'
    requires forall k :: p <= k < u ==> InClass(s[k], Digits)
    requires forall k :: u + 1 <= k < |s| ==> InClass(s[k], Digits)
    ensures IsWallRef(s)
  {
    RunEndsAt(s, p, u, Digits);
    RunEndsAt(s, u + 1, |s|, Digits);
  }

  lemma WallSpec(s: string)
    ensures IsWallRef(s) <==> WallLanguage(s)
  {
    if IsWallRef(s) {
      WallRefInLanguage(s);
    }
    if WallLanguage(s) {
      WallLanguageIsRef(s);
    }
  }

  lemma ShortIdSpec(s: string)
    ensures IsShortIdRef(s) <==> ShortIdLanguage(s)
  {
    DigitsAfterSpec(s, "id");
    DigitsAfterSpec(s, "club");
    DigitsAfterSpec(s, "public");
    DigitsAfterSpec(s, "event");
    WallSpec(s);
  }

  /** A reference in the language of one of the three expressions gets the
      `https://vk.com/` prefix; any other reference is its own URL. */
  lemma UrlRule(ref: string)
    ensures ShortIdLanguage(ref) || ScreenNameLanguage(ref) ==> ResolveUrl(ref) == VkBase + ref
    ensures !(ShortIdLanguage(ref) || ScreenNameLanguage(ref)) ==> ResolveUrl(ref) == ref
  {
    ShortIdSpec(ref);
    ScreenNameSpec(ref);
  }

  lemma IdExample()
    ensures ResolveUrl("id123456") == "https://vk.com/id123456"
  {
    var a := "id123456";
    assert StartsWith(a, "id");
    RunEndsAt(a, 2, 8, Digits);
  }

  lemma ClubExample()
    ensures ResolveUrl("club123") == "https://vk.com/club123"
  {
    var b := "club123";
    assert StartsWith(b, "club");
    RunEndsAt(b, 4, 7, Digits);
  }

  lemma WallExample()
    ensures ResolveUrl("wall-1_2") == "https://vk.com/wall-1_2"
  {
    var w := "wall-1_2";
    assert StartsWith(w, "wall");
    RunEndsAt(w, 5, 6, Digits);
    RunEndsAt(w, 7, 8, Digits);
  }

  lemma ScreenNameExample()
    ensures ResolveUrl("durov") == "https://vk.com/durov"
  {
    RunEndsAt("durov", 0, 5, NameChars);
  }

  /** The characters of a reference that fall inside a prefix made of name
      characters are name characters. */
  lemma PrefixOfNameChars(ref: string, prefix: string, k: nat)
    requires StartsWith(ref, prefix) && AllNameChars(prefix) && k < |prefix|
    ensures IsNameChar(ref[k])
  {
    assert ref[k] == ref[..|prefix|][k];
  }

  /** A reference with a character outside `[a-zA-Z0-9_.]` that does not
      start with `wall` is used verbatim. */
  lemma VerbatimRef(ref: string, k: nat)
    requires k < |ref| && !IsNameChar(ref[k])
    requires !StartsWith(ref, "wall")
    ensures ResolveUrl(ref) == ref
  {
    RunIsMaximal(ref, 0, NameChars);
    var prefixes := ["id", "club", "public", "event"];
    forall x | 0 <= x < 4
      ensures !DigitsAfter(ref, prefixes[x])
    {
      var p := prefixes[x];
      if DigitsAfter(ref, p) {
        assert AllNameChars(p);
        RunIsMaximal(ref, |p|, Digits);
        if k < |p| {
          PrefixOfNameChars(ref, p, k);
        }
      }
    }
    assert !DigitsAfter(ref, prefixes[0]) && !DigitsAfter(ref, prefixes[1]);
    assert !DigitsAfter(ref, prefixes[2]) && !DigitsAfter(ref, prefixes[3]);
  }

  lemma VerbatimExamples()
    ensures ResolveUrl("https://example.com") == "https://example.com"
    ensures ResolveUrl("vk.com/daoqub") == "vk.com/daoqub"
  {
    var e := "https://example.com";
    assert e[..4][0] == 'h';
    VerbatimRef(e, 5);
    var d := "vk.com/daoqub";
    assert d[..4][0] == 'v';
    VerbatimRef(d, 6);
  }
}
