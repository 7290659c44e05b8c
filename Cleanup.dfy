/** `cleanupOrphanedCache`: the removed maintenance routine that deleted the
    `Published_<group id>` ledger sheets whose group no binding refers to
    any more. */
module Cleanup {
  import opened Wrappers
  import opened Text
  import opened Bindings
  import opened Ledger

  // ---------------------------------------------------------------------
  // The group ids of the bindings.

  predicate NoDuplicates(s: seq<string>)
  {
    forall i, j :: 0 <= i < j < |s| ==> s[i] != s[j]
  }

  /** The group ids in order of first appearance, each once and none empty.
      Every binding contributes, whatever its status. */
  function ActiveGroups(bs: seq<Binding>, groupIdOf: string -> string): seq<string>
  {
    if bs == [] then []
    else
      var acc := ActiveGroups(bs[..|bs| - 1], groupIdOf);
      var gid := groupIdOf(GroupUrlOf(bs[|bs| - 1]));
      if gid != "" && gid !in acc then acc + [gid] else acc
  }

  /** Some binding of bs has group id g. */
  predicate IsGroupOf(bs: seq<Binding>, groupIdOf: string -> string, g: string)
  {
    exists b :: b in bs && groupIdOf(GroupUrlOf(b)) == g
  }

  /** The list holds each non-empty group id of the bindings exactly once,
      and nothing else. */
  lemma {:induction false} ActiveGroupsSpec(bs: seq<Binding>, groupIdOf: string -> string)
    ensures NoDuplicates(ActiveGroups(bs, groupIdOf))
    ensures forall g :: g in ActiveGroups(bs, groupIdOf) <==> g != "" && IsGroupOf(bs, groupIdOf, g)
  {
    if bs != [] {
      var init := bs[..|bs| - 1];
      var last := bs[|bs| - 1];
      ActiveGroupsSpec(init, groupIdOf);
      forall g
        ensures g in ActiveGroups(bs, groupIdOf) <==> g != "" && IsGroupOf(bs, groupIdOf, g)
      {
        if IsGroupOf(bs, groupIdOf, g) {
          var b :| b in bs && groupIdOf(GroupUrlOf(b)) == g;
          if b != last {
            assert b in init;
          }
        }
        if IsGroupOf(init, groupIdOf, g) {
          var b :| b in init && groupIdOf(GroupUrlOf(b)) == g;
          assert b in bs;
        }
        assert last in bs;
      }
    }
  }

  /** `activeGroups`, built with `indexOf` and `push`. */
  method CollectActiveGroups(bs: seq<Binding>, groupIdOf: string -> string) returns (groups: seq<string>)
    ensures groups == ActiveGroups(bs, groupIdOf)
  {
    groups := [];
    var i := 0;
    while i < |bs|
      invariant 0 <= i <= |bs|
      invariant groups == ActiveGroups(bs[..i], groupIdOf)
    {
      assert bs[..i + 1][..i] == bs[..i];
      var gid := groupIdOf(GroupUrlOf(bs[i]));
      if gid != "" && gid !in groups {
        groups := groups + [gid];
      }
      i := i + 1;
    }
    assert bs[..|bs|] == bs;
  }

  // ---------------------------------------------------------------------
  // `sheetName.match(/Published_(-?\d+)/)`: the leftmost match, its group.

  const Prefix := "Published_"

  /** The group captured by a match that starts at p, if one does. */
  function MatchAt(s: string, p: nat): (r: Option<string>)
    requires p <= |s|
  {
    if !SliceAt(s, p, Prefix) then None
    else
      var q := p + |Prefix|;
      if q + 1 < |s| && s[q] == '-' && IsDigit(s[q + 1]) then Some(s[q..RunEnd(s, q + 1, Digits)])
      else if q < |s| && IsDigit(s[q]) then Some(s[q..RunEnd(s, q, Digits)])
      else None
  }

  /** The capture of the leftmost match at or after p. */
  function MatchFrom(s: string, p: nat): Option<string>
    requires p <= |s|
    decreases |s| - p
  {
    if MatchAt(s, p).Some? then MatchAt(s, p)
    else if p < |s| then MatchFrom(s, p + 1)
    else None
  }

  function PublishedGroupId(name: string): Option<string>
  {
    MatchFrom(name, 0)
  }

  /** An optional minus sign followed by at least one digit. */
  predicate IsGroupId(g: string)
  {
    if |g| > 0 && g[0] == '-' then |g| > 1 && AllDigits(g[1..]) else |g| > 0 && AllDigits(g)
  }

  lemma SliceJoin(s: string, p: nat, a: string, b: string)
    requires SliceAt(s, p, a) && SliceAt(s, p + |a|, b)
    ensures SliceAt(s, p, a + b)
  {
    assert s[p..p + |a| + |b|] == s[p..p + |a|] + s[p + |a|..p + |a| + |b|];
  }

  /** A run of digits starting at q, with at least one digit. */
  lemma DigitsAt(s: string, q: nat)
    requires q < |s| && IsDigit(s[q])
    ensures var g := s[q..RunEnd(s, q, Digits)]; |g| > 0 && AllDigits(g) && SliceAt(s, q, g)
  {
    RunIsMaximal(s, q, Digits);
  }

  /** A match of the expression starts at p: `Published_`, then a digit or
      a minus sign and a digit. */
  predicate MatchStartsAt(s: string, p: nat)
  {
    && SliceAt(s, p, Prefix)
    && var q := p + |Prefix|;
       (q < |s| && IsDigit(s[q])) || (q + 1 < |s| && s[q] == '-' && IsDigit(s[q + 1]))
  }

  /** A match starts at p exactly when the expression can start one there;
      its group has the shape `-?\d+`, follows `Published_`, and takes the
      whole run of digits. */
  lemma MatchAtSpec(s: string, p: nat)
    requires p <= |s|
    ensures MatchAt(s, p).Some? <==> MatchStartsAt(s, p)
    ensures MatchAt(s, p).Some? ==> IsGroupId(MatchAt(s, p).value) && SliceAt(s, p, Prefix + MatchAt(s, p).value)
    ensures MatchAt(s, p).Some? ==>
      var e := p + |Prefix| + |MatchAt(s, p).value|;
      e == |s| || !IsDigit(s[e])
  {
    if MatchAt(s, p).Some? {
      var q := p + |Prefix|;
      var g := MatchAt(s, p).value;
      if q + 1 < |s| && s[q] == '-' && IsDigit(s[q + 1]) {
        DigitsAt(s, q + 1);
        RunIsMaximal(s, q + 1, Digits);
        var d := s[q + 1..RunEnd(s, q + 1, Digits)];
        assert g == [s[q]] + d;
        assert g[1..] == d;
      } else {
        DigitsAt(s, q);
        RunIsMaximal(s, q, Digits);
      }
      SliceJoin(s, p, Prefix, g);
    }
  }

  /** The search finds nothing exactly when no match starts at or after p;
      otherwise it returns the group of the leftmost match. */
  lemma {:induction false} MatchFromSpec(s: string, p: nat)
    requires p <= |s|
    ensures MatchFrom(s, p).None? <==> forall i :: p <= i <= |s| ==> !MatchStartsAt(s, i)
    ensures MatchFrom(s, p).Some? ==>
      exists i :: p <= i <= |s| && MatchAt(s, i) == MatchFrom(s, p) && forall j :: p <= j < i ==> !MatchStartsAt(s, j)
    decreases |s| - p
  {
    MatchAtSpec(s, p);
    if MatchAt(s, p).None? && p < |s| {
      MatchFromSpec(s, p + 1);
      if MatchFrom(s, p).Some? {
        var i :| p + 1 <= i <= |s| && MatchAt(s, i) == MatchFrom(s, p + 1)
                 && forall j :: p + 1 <= j < i ==> !MatchStartsAt(s, j);
        assert forall j :: p <= j < i ==> !MatchStartsAt(s, j);
      }
    } else if MatchAt(s, p).Some? {
      assert MatchAt(s, p) == MatchFrom(s, p);
    }
  }

  /** `sheetName.match(/Published_(-?\d+)/)` fails exactly when no match
      starts anywhere in the name; otherwise its group is `-?\d+`, it comes
      from the leftmost match, right after `Published_`, and it takes the
      whole run of digits. */
  lemma PublishedGroupIdSpec(name: string)
    ensures PublishedGroupId(name).None? <==> forall i :: 0 <= i <= |name| ==> !MatchStartsAt(name, i)
    ensures PublishedGroupId(name).Some? ==>
      var g := PublishedGroupId(name).value;
      && IsGroupId(g)
      && exists i :: && 0 <= i <= |name| && SliceAt(name, i, Prefix + g)
                     && (forall j :: 0 <= j < i ==> !MatchStartsAt(name, j))
                     && (i + |Prefix| + |g| == |name| || !IsDigit(name[i + |Prefix| + |g|]))
  {
    MatchFromSpec(name, 0);
    if PublishedGroupId(name).Some? {
      var g := PublishedGroupId(name).value;
      var i :| 0 <= i <= |name| && MatchAt(name, i) == MatchFrom(name, 0)
               && forall j :: 0 <= j < i ==> !MatchStartsAt(name, j);
      MatchAtSpec(name, i);
      assert MatchAt(name, i).value == g;
      assert SliceAt(name, i, Prefix + g);
    }
  }

  /** The sheet named for a group id gives that id back. */
  lemma PublishedGroupIdOfName(g: string)
    requires IsGroupId(g)
    ensures PublishedGroupId(Prefix + g) == Some(g)
  {
    var s := Prefix + g;
    var q := |Prefix|;
    assert SliceAt(s, 0, Prefix) by {
      assert s[..q] == Prefix;
    }
    assert forall k :: 0 <= k < |g| ==> s[q + k] == g[k];
    if g[0] == '-' {
      assert IsDigit(g[1]);
      RunEndsAt(s, q + 1, |s|, Digits);
    } else {
      RunEndsAt(s, q, |s|, Digits);
    }
    assert s[q..|s|] == g;
  }

  // ---------------------------------------------------------------------
  // The deletion rule.

  /** A sheet is counted when its name starts with `Published_`. */
  predicate IsCacheSheet(name: string)
  {
    StartsWith(name, Prefix)
  }

  /** A counted sheet is an orphan when its name yields a group id that is
      not an active group. */
  predicate IsOrphan(name: string, active: seq<string>)
  {
    IsCacheSheet(name) && PublishedGroupId(name).Some? && PublishedGroupId(name).value !in active
  }

  /** The sheets, with the orphans among the visited names deleted. */
  function Swept(sheets: Sheets, visited: set<string>, active: seq<string>): Sheets
  {
    map k | k in sheets && !(k in visited && IsOrphan(k, active)) :: sheets[k]
  }

  /** The workbook after the cleanup: every orphan deleted. */
  function Cleaned(sheets: Sheets, active: seq<string>): (r: Sheets)
    ensures r.Keys <= sheets.Keys
  {
    map k | k in sheets && !IsOrphan(k, active) :: sheets[k]
  }

  ghost function CacheNames(names: set<string>): set<string>
  {
    set k | k in names && IsCacheSheet(k)
  }

  ghost function OrphanNames(names: set<string>, active: seq<string>): set<string>
  {
    set k | k in names && IsOrphan(k, active)
  }

  datatype CleanupReport = CleanupReport(checked: int, cleaned: int)

  lemma SweptStep(sheets: Sheets, visited: set<string>, active: seq<string>, k: string)
    requires k in sheets
    ensures Swept(sheets, visited + {k}, active)
      == if IsOrphan(k, active) then Swept(sheets, visited, active) - {k} else Swept(sheets, visited, active)
  {
  }

  lemma NamesStep(names: set<string>, active: seq<string>, k: string)
    requires k !in names
    ensures |CacheNames(names + {k})| == |CacheNames(names)| + (if IsCacheSheet(k) then 1 else 0)
    ensures |OrphanNames(names + {k}, active)| == |OrphanNames(names, active)| + (if IsOrphan(k, active) then 1 else 0)
  {
    if IsCacheSheet(k) {
      assert CacheNames(names + {k}) == CacheNames(names) + {k};
    } else {
      assert CacheNames(names + {k}) == CacheNames(names);
    }
    if IsOrphan(k, active) {
      assert OrphanNames(names + {k}, active) == OrphanNames(names, active) + {k};
    } else {
      assert OrphanNames(names + {k}, active) == OrphanNames(names, active);
    }
  }

  lemma SweptAll(sheets: Sheets, active: seq<string>)
    ensures Swept(sheets, sheets.Keys, active) == Cleaned(sheets, active)
  {
  }

  lemma MoveOne(all: set<string>, remaining: set<string>, visited: set<string>, x: string)
    requires remaining !! visited && remaining + visited == all && x in remaining
    ensures (remaining - {x}) !! (visited + {x}) && (remaining - {x}) + (visited + {x}) == all
  {
  }

  /** The sweep over `ss.getSheets()`. The decision for one sheet does not
      depend on the others, so the sheets are visited in any order. */
  method SweepSheets(book: Workbook, active: seq<string>) returns (checked: int, cleaned: int)
    modifies book
    ensures book.sheets == Cleaned(old(book.sheets), active)
    ensures checked == |CacheNames(old(book.sheets).Keys)|
    ensures cleaned == |OrphanNames(old(book.sheets).Keys, active)|
  {
    ghost var s0 := book.sheets;
    ghost var visited: set<string> := {};
    var remaining := book.sheets.Keys;
    checked, cleaned := 0, 0;
    while remaining != {}
      invariant remaining !! visited && remaining + visited == s0.Keys
      invariant book.sheets == Swept(s0, visited, active)
      invariant checked == |CacheNames(visited)|
      invariant cleaned == |OrphanNames(visited, active)|
      decreases |remaining|
    {
      var name :| name in remaining;
      SweptStep(s0, visited, active, name);
      NamesStep(visited, active, name);
      ghost var before := book.sheets;
      if StartsWith(name, Prefix) {
        checked := checked + 1;
        var groupId := PublishedGroupId(name);
        if groupId.Some? && groupId.value !in active {
          book.sheets := book.sheets - {name};
          cleaned := cleaned + 1;
        }
      }
      assert book.sheets == if IsOrphan(name, active) then before - {name} else before;
      MoveOne(s0.Keys, remaining, visited, name);
      visited := visited + {name};
      remaining := remaining - {name};
    }
    SweptAll(s0, active);
  }

  /** `cleanupOrphanedCache`: without the bindings nothing is deleted. */
  method CleanupOrphanedCache(book: Workbook, bindings: Result<seq<Binding>, string>, groupIdOf: string -> string)
    returns (r: Result<CleanupReport, string>)
    modifies book
    ensures bindings.Failure? ==> r == Failure(bindings.error) && book.sheets == old(book.sheets)
    ensures bindings.Success? ==>
      var active := ActiveGroups(bindings.value, groupIdOf);
      && book.sheets == Cleaned(old(book.sheets), active)
      && r == Success(CleanupReport(|CacheNames(old(book.sheets).Keys)|,
                                    |OrphanNames(old(book.sheets).Keys, active)|))
  {
    if bindings.Failure? {
      return Failure(bindings.error);
    }
    var active := CollectActiveGroups(bindings.value, groupIdOf);
    var checked, cleaned := SweepSheets(book, active);
    r := Success(CleanupReport(checked, cleaned));
  }

  // ---------------------------------------------------------------------
  // What the cleanup promises.

  /** A sheet is deleted exactly when it is an orphan; in particular a sheet
      whose name does not start with `Published_` is never deleted, and a
      kept `Published_` sheet either has no group id in its name or an
      active one. Kept sheets keep their rows. */
  lemma CleanedSpec(sheets: Sheets, active: seq<string>, name: string)
    requires name in sheets
    ensures name !in Cleaned(sheets, active) <==> IsOrphan(name, active)
    ensures !IsCacheSheet(name) ==> name in Cleaned(sheets, active)
    ensures name in Cleaned(sheets, active) && IsCacheSheet(name) ==>
      PublishedGroupId(name).None? || PublishedGroupId(name).value in active
    ensures name in Cleaned(sheets, active) ==> Cleaned(sheets, active)[name] == sheets[name]
  {
  }

  /** `cleaned <= checked`. */
  lemma CleanedAtMostChecked(names: set<string>, active: seq<string>)
    ensures |OrphanNames(names, active)| <= |CacheNames(names)|
  {
    assert OrphanNames(names, active) <= CacheNames(names);
    SubsetCard(OrphanNames(names, active), CacheNames(names));
  }

  lemma {:induction false} SubsetCard(a: set<string>, b: set<string>)
    requires a <= b
    ensures |a| <= |b|
    decreases |b|
  {
    if a != {} {
      var x :| x in a;
      SubsetCard(a - {x}, b - {x});
    }
  }

  /** A second cleanup with the same bindings deletes nothing. */
  lemma CleanupTwice(sheets: Sheets, active: seq<string>)
    ensures Cleaned(Cleaned(sheets, active), active) == Cleaned(sheets, active)
    ensures OrphanNames(Cleaned(sheets, active).Keys, active) == {}
  {
  }

  /** The sheet of a group that some binding refers to survives. */
  lemma ActiveGroupSheetKept(sheets: Sheets, bs: seq<Binding>, groupIdOf: string -> string, b: Binding)
    requires b in bs && IsGroupId(groupIdOf(GroupUrlOf(b)))
    requires Prefix + groupIdOf(GroupUrlOf(b)) in sheets
    ensures Prefix + groupIdOf(GroupUrlOf(b)) in Cleaned(sheets, ActiveGroups(bs, groupIdOf))
  {
    var g := groupIdOf(GroupUrlOf(b));
    PublishedGroupIdOfName(g);
    ActiveGroupsSpec(bs, groupIdOf);
    assert IsGroupOf(bs, groupIdOf, g);
  }
}
