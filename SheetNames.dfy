/** `extractSheetNameFromVkUrl`: the name of the ledger sheet of a VK
    group, taken from the group's URL.

    `extractSheetNameFromVkUrl` strips `^https?:\/\/(m\.|www\.)?` (case-insensitively), keeps
    what comes before the first `?` and then before the first `#`, and
    returns the group of the leftmost match of `vk\.com\/([a-zA-Z0-9_.]+)`. */
module SheetNames {
  import opened Wrappers
  import opened Text

  /** Case folding of the `i` flag, on the letters the prefix expression
      names: without the `u` flag only ASCII letters fold onto them. */
  function Lower(c: char): char
  {
    if 'A' <= c <= 'Z' then (c as int + 32) as char else c
  }

  /** Where `^https?:\/\/(m\.|www\.)?` stops matching, or 0 when it does
      not match. */
  function SchemeEnd(s: string): (e: nat)
    ensures e <= |s|
  {
    if 4 <= |s| && Lower(s[0]) == 'h' && Lower(s[1]) == 't' && Lower(s[2]) == 't' && Lower(s[3]) == 'p' then
      var q := if 4 < |s| && Lower(s[4]) == 's' then 5 else 4;
      if q + 3 <= |s| && s[q] == ':' && s[q + 1] == '/' && s[q + 2] == '/' then HostEnd(s, q + 3) else 0
    else 0
  }

  /** The optional `(m\.|www\.)` group after the scheme, alternatives
      tried in order. */
  function HostEnd(s: string, e: nat): (h: nat)
    requires e <= |s|
    ensures e <= h <= |s|
  {
    if e + 2 <= |s| && Lower(s[e]) == 'm' && s[e + 1] == '.' then e + 2
    else if e + 4 <= |s| && Lower(s[e]) == 'w' && Lower(s[e + 1]) == 'w' && Lower(s[e + 2]) == 'w'
      && s[e + 3] == '.' then e + 4
    else e
  }

  /** The first position at or after i that holds c, or |s|. */
  function IndexOf(s: string, c: char, i: nat): (j: nat)
    requires i <= |s|
    ensures i <= j <= |s|
    decreases |s| - i
  {
    if i == |s| || s[i] == c then i else IndexOf(s, c, i + 1)
  }

  /** `s.split(c)[0]` */
  function Before(s: string, c: char): string
  {
    s[..IndexOf(s, c, 0)]
  }

  /** `vk\.com\/` followed by a name character matches at p. */
  predicate VkMatchAt(s: string, p: nat)
  {
    && p + 7 < |s|
    && s[p] == 'v' && s[p + 1] == 'k' && s[p + 2] == '.' && s[p + 3] == 'c'
    && s[p + 4] == 'o' && s[p + 5] == 'm' && s[p + 6] == '/' && IsNameChar(s[p + 7])
  }

  /** The leftmost match at or after i. */
  function FindVk(s: string, i: nat): (r: Option<nat>)
    requires i <= |s|
    ensures r.Some? ==> i <= r.value && r.value + 7 < |s|
    decreases |s| - i
  {
    if i == |s| then None
    else if VkMatchAt(s, i) then Some(i)
    else FindVk(s, i + 1)
  }

  /** The captured group of the leftmost match: the greedy run of name
      characters after `vk.com/`. */
  function NameAfterVk(s: string): Option<string>
  {
    match FindVk(s, 0)
    case None => None
    case Some(p) => Some(s[p + 7..RunEnd(s, p + 7, NameChars)])
  }

  /** The cleaned URL. */
  function CleanUrl(url: string): string
  {
    Before(Before(url[SchemeEnd(url)..], '?'), '#')
  }

  /** `extractSheetNameFromVkUrl`; None is its `null`. */
  function ExtractSheetName(url: string): (r: Option<string>)
    ensures url == "" ==> r == None
  {
    if url == "" then None else NameAfterVk(CleanUrl(url))
  }

  /** The same extraction with no prefix stripped. */
  function Unstripped(url: string): Option<string>
  {
    NameAfterVk(Before(Before(url, '?'), '#'))
  }

  /** A character that can neither start `vk.com/` nor cut the URL. */
  predicate Inert(c: char)
  {
    c != 'v' && c != '?' && c != '#'
  }

  // ---------------------------------------------------------------------
  // The search: what FindVk returns is the leftmost match.

  lemma {:induction false} FindVkSpec(s: string, i: nat)
    requires i <= |s|
    ensures FindVk(s, i).Some? ==> VkMatchAt(s, FindVk(s, i).value)
    ensures forall k :: i <= k < |s| && (FindVk(s, i).None? || k < FindVk(s, i).value) ==> !VkMatchAt(s, k)
    decreases |s| - i
  {
    if i < |s| && !VkMatchAt(s, i) {
      FindVkSpec(s, i + 1);
    }
  }

  /** A sheet name is a non-empty string of `[a-zA-Z0-9_.]`. */
  lemma SheetNameIsName(url: string)
    ensures ExtractSheetName(url).Some? ==>
      var n := ExtractSheetName(url).value; |n| > 0 && AllNameChars(n)
  {
    if url != "" {
      var s := CleanUrl(url);
      FindVkSpec(s, 0);
      if FindVk(s, 0).Some? {
        var p := FindVk(s, 0).value;
        RunIsMaximal(s, p + 7, NameChars);
        var n := s[p + 7..RunEnd(s, p + 7, NameChars)];
        assert forall k :: 0 <= k < |n| ==> n[k] == s[p + 7 + k];
      }
    }
  }

  // ---------------------------------------------------------------------
  // One inert character in front changes nothing.

  lemma {:induction false} IndexOfCons(c: char, b: string, x: char, i: nat)
    requires i <= |b|
    ensures IndexOf([c] + b, x, i + 1) == IndexOf(b, x, i) + 1
    decreases |b| - i
  {
    if i < |b| {
      assert ([c] + b)[i + 1] == b[i];
      if b[i] != x {
        IndexOfCons(c, b, x, i + 1);
      }
    }
  }

  lemma BeforeCons(c: char, b: string, x: char)
    requires c != x
    ensures Before([c] + b, x) == [c] + Before(b, x)
  {
    IndexOfCons(c, b, x, 0);
    assert ([c] + b)[0] == c;
    var j := IndexOf(b, x, 0);
    assert ([c] + b)[..j + 1] == [c] + b[..j];
  }

  lemma VkMatchCons(c: char, b: string, i: nat)
    ensures VkMatchAt([c] + b, i + 1) <==> VkMatchAt(b, i)
  {
    var s := [c] + b;
    if i + 7 < |b| {
      assert s[i + 1] == b[i] && s[i + 2] == b[i + 1] && s[i + 3] == b[i + 2] && s[i + 4] == b[i + 3];
      assert s[i + 5] == b[i + 4] && s[i + 6] == b[i + 5] && s[i + 7] == b[i + 6] && s[i + 8] == b[i + 7];
    }
  }

  lemma {:induction false} FindVkCons(c: char, b: string, i: nat)
    requires i <= |b|
    ensures FindVk([c] + b, i + 1) == if FindVk(b, i).Some? then Some(FindVk(b, i).value + 1) else None
    decreases |b| - i
  {
    if i < |b| {
      VkMatchCons(c, b, i);
      if !VkMatchAt(b, i) {
        FindVkCons(c, b, i + 1);
      }
    }
  }

  lemma {:induction false} RunEndCons(c: char, b: string, i: nat, cls: CharClass)
    requires i <= |b|
    ensures RunEnd([c] + b, i + 1, cls) == RunEnd(b, i, cls) + 1
    decreases |b| - i
  {
    if i < |b| {
      assert ([c] + b)[i + 1] == b[i];
      if InClass(b[i], cls) {
        RunEndCons(c, b, i + 1, cls);
      }
    }
  }

  lemma NameAfterVkCons(c: char, b: string)
    requires c != 'v'
    ensures NameAfterVk([c] + b) == NameAfterVk(b)
  {
    var s := [c] + b;
    assert !VkMatchAt(s, 0);
    FindVkCons(c, b, 0);
    if FindVk(b, 0).Some? {
      var p := FindVk(b, 0).value;
      RunEndCons(c, b, p + 7, NameChars);
      var e := RunEnd(b, p + 7, NameChars);
      assert s[p + 8..e + 1] == b[p + 7..e];
    }
  }

  lemma UnstrippedCons(c: char, b: string)
    requires Inert(c)
    ensures Unstripped([c] + b) == Unstripped(b)
  {
    BeforeCons(c, b, '?');
    BeforeCons(c, Before(b, '?'), '#');
    NameAfterVkCons(c, Before(Before(b, '?'), '#'));
  }

  /** A prefix of inert characters changes nothing. */
  lemma {:induction false} UnstrippedPrefix(p: string, b: string)
    requires forall k :: 0 <= k < |p| ==> Inert(p[k])
    ensures Unstripped(p + b) == Unstripped(b)
    decreases |p|
  {
    if p != [] {
      assert p + b == [p[0]] + (p[1..] + b);
      UnstrippedCons(p[0], p[1..] + b);
      UnstrippedPrefix(p[1..], b);
    } else {
      assert p + b == b;
    }
  }

  // ---------------------------------------------------------------------
  // Stripping the scheme never changes the sheet name: the stripped
  // prefix holds no `v`, `?` or `#`.

  lemma SchemeIsInert(s: string)
    ensures forall k :: 0 <= k < SchemeEnd(s) ==> Inert(s[k])
  {
  }

  lemma ExtractIsUnstripped(url: string)
    ensures ExtractSheetName(url) == Unstripped(url)
  {
    if url != "" {
      var e := SchemeEnd(url);
      SchemeIsInert(url);
      assert url == url[..e] + url[e..];
      UnstrippedPrefix(url[..e], url[e..]);
    }
  }

  /** Any prefix without `v`, `?` or `#`, a scheme and `m.` or `www.`
      among them, leaves the sheet name as it is. */
  lemma ExtractIgnoresPrefix(p: string, b: string)
    requires forall k :: 0 <= k < |p| ==> Inert(p[k])
    ensures ExtractSheetName(p + b) == ExtractSheetName(b)
  {
    ExtractIsUnstripped(p + b);
    ExtractIsUnstripped(b);
    UnstrippedPrefix(p, b);
  }

  // ---------------------------------------------------------------------
  // A query or a fragment changes nothing.

  lemma {:induction false} IndexOfAppend(u: string, w: string, x: char, i: nat)
    requires i <= |u|
    requires IndexOf(u, x, i) < |u| || (|w| > 0 && w[0] == x)
    ensures IndexOf(u + w, x, i) == IndexOf(u, x, i)
    decreases |u| - i
  {
    if i < |u| {
      assert (u + w)[i] == u[i];
      if u[i] != x {
        IndexOfAppend(u, w, x, i + 1);
      }
    } else {
      assert (u + w)[i] == w[0];
    }
  }

  lemma {:induction false} IndexOfPast(u: string, w: string, x: char, i: nat)
    requires i <= |u| && IndexOf(u, x, i) == |u|
    requires |w| > 0 && w[0] != x
    ensures IndexOf(u + w, x, i) > |u|
    decreases |u| - i
  {
    if i < |u| {
      assert (u + w)[i] == u[i];
      IndexOfPast(u, w, x, i + 1);
    } else {
      assert (u + w)[i] == w[0];
    }
  }

  lemma BeforeAppend(u: string, w: string, x: char)
    requires IndexOf(u, x, 0) < |u| || (|w| > 0 && w[0] == x)
    ensures Before(u + w, x) == Before(u, x)
  {
    IndexOfAppend(u, w, x, 0);
    var j := IndexOf(u, x, 0);
    assert (u + w)[..j] == u[..j];
  }

  lemma UnstrippedIgnoresQuery(u: string, q: string)
    ensures Unstripped(u + ("?" + q)) == Unstripped(u)
  {
    BeforeAppend(u, "?" + q, '?');
  }

  lemma UnstrippedIgnoresFragment(u: string, f: string)
    ensures Unstripped(u + ("#" + f)) == Unstripped(u)
  {
    var w := "#" + f;
    if IndexOf(u, '?', 0) < |u| {
      BeforeAppend(u, w, '?');
    } else {
      IndexOfPast(u, w, '?', 0);
      var j := IndexOf(u + w, '?', 0);
      var y := Before(u + w, '?');
      assert y == u + (u + w)[|u|..j];
      assert (u + w)[|u|..j][0] == '#';
      BeforeAppend(u, (u + w)[|u|..j], '#');
      assert Before(u, '?') == u;
    }
  }

  lemma ExtractIgnoresQuery(u: string, q: string)
    ensures ExtractSheetName(u + ("?" + q)) == ExtractSheetName(u)
  {
    ExtractIsUnstripped(u + ("?" + q));
    ExtractIsUnstripped(u);
    UnstrippedIgnoresQuery(u, q);
  }

  lemma ExtractIgnoresFragment(u: string, f: string)
    ensures ExtractSheetName(u + ("#" + f)) == ExtractSheetName(u)
  {
    ExtractIsUnstripped(u + ("#" + f));
    ExtractIsUnstripped(u);
    UnstrippedIgnoresFragment(u, f);
  }

  // ---------------------------------------------------------------------
  // The usual URL shapes.

  lemma UnstrippedVkPath(name: string)
    requires |name| > 0 && AllNameChars(name)
    ensures Unstripped("vk.com/" + name) == Some(name)
  {
    var s := "vk.com/" + name;
    assert s[7] == name[0];
    assert VkMatchAt(s, 0);
    assert FindVk(s, 0) == Some(0);
    IndexAbsent(s, '?', 0);
    IndexAbsent(s, '#', 0);
    assert Before(s, '?') == s;
    assert Before(s, '#') == s;
    RunEndsAt(s, 7, |s|, NameChars);
    assert s[7..|s|] == name;
  }

  /** `vk.com/<name>` gives the name back. */
  lemma NameOfVkPath(name: string)
    requires |name| > 0 && AllNameChars(name)
    ensures ExtractSheetName("vk.com/" + name) == Some(name)
  {
    ExtractIsUnstripped("vk.com/" + name);
    UnstrippedVkPath(name);
  }

  lemma {:induction false} IndexAbsent(s: string, x: char, i: nat)
    requires i <= |s| && forall k :: i <= k < |s| ==> s[k] != x
    ensures IndexOf(s, x, i) == |s|
    decreases |s| - i
  {
    if i < |s| {
      IndexAbsent(s, x, i + 1);
    }
  }

  lemma WwwSchemeIsInert()
    ensures forall k :: 0 <= k < |"https://www."| ==> Inert("https://www."[k])
  {
    var p := "https://www.";
    assert p[0] == 'h' && p[1] == 't' && p[2] == 't' && p[3] == 'p' && p[4] == 's' && p[5] == ':';
    assert p[6] == '/' && p[7] == '/' && p[8] == 'w' && p[9] == 'w' && p[10] == 'w' && p[11] == '.';
  }

  /** A group URL written out in full: scheme, host prefix, path, query and
      fragment. */
  lemma NameOfFullUrl(name: string, q: string, f: string)
    requires |name| > 0 && AllNameChars(name)
    ensures ExtractSheetName("https://www." + ("vk.com/" + name + ("?" + q) + ("#" + f))) == Some(name)
  {
    NameOfVkPath(name);
    var b := "vk.com/" + name;
    ExtractIgnoresQuery(b, q);
    ExtractIgnoresFragment(b + ("?" + q), f);
    var p := "https://www.";
    WwwSchemeIsInert();
    ExtractIgnoresPrefix(p, b + ("?" + q) + ("#" + f));
  }
}
