/**
 * The regular expressions of app.py, each as one shape of `Pattern`, and the
 * leftmost search `re.search` performs with them. `MatchAt(p, s, i)` is the
 * captured group when `p` matches at index `i`; `Search` tries the indices
 * 0, 1, ..., |s| in turn and keeps the first match.
 */
module Patterns {
  import opened Wrappers
  import opened Text

  const TitleOpen := "<title>"
  const TitleClose := " - YouTube</title>"

  datatype Pattern =
    | IdAfterSlashOrV          // (?:v=|\/)([0-9A-Za-z_-]{11}).*
    | IdAfter(prefix: string)  // <prefix>([0-9A-Za-z_-]{11})
    | DigitsField(key: string) // "<key>":"(\d+)"
    | PageTitle                // <title>(.*?) - YouTube</title>

  /** The opening text of the pattern `"<key>":"(\d+)"`, up to the digits. */
  function FieldOpen(key: string): string {
    "\"" + key + "\":\""
  }

  /** Eleven identifier characters start at index `i`. */
  predicate IdCharsAt(s: string, i: nat) {
    i + IdLength <= |s| && forall k :: i <= k < i + IdLength ==> IsIdChar(s[k])
  }

  /** Where the greedy `\d+` starting at `j` stops: the end of the run of digits. */
  function DigitRunEnd(s: string, j: nat): (e: nat)
    requires j <= |s|
    ensures j <= e <= |s|
    ensures forall k :: j <= k < e ==> IsDigit(s[k])
    ensures e < |s| ==> !IsDigit(s[e])
    decreases |s| - j
  {
    if j < |s| && IsDigit(s[j]) then DigitRunEnd(s, j + 1) else j
  }

  /**
   * Where the lazy `(.*?)` starting at `j` stops: the first index from which the
   * closing text follows, provided no newline (which `.` does not match) lies before it.
   */
  function LazyTitleEnd(s: string, j: nat): (e: Option<nat>)
    requires j <= |s|
    ensures e.Some? ==> j <= e.value <= |s| && StartsAt(s, e.value, TitleClose)
    ensures e.Some? ==> forall k :: j <= k < e.value ==> s[k] != '\n' && !StartsAt(s, k, TitleClose)
    ensures e.None? ==> forall k :: j <= k <= |s| && StartsAt(s, k, TitleClose) ==> exists m :: j <= m < k && s[m] == '\n'
    decreases |s| - j
  {
    if StartsAt(s, j, TitleClose) then Some(j)
    else if j == |s| || s[j] == '\n' then None
    else LazyTitleEnd(s, j + 1)
  }

  /** The group `p` captures when the match is anchored at index `i`, if it matches there. */
  function MatchAt(p: Pattern, s: string, i: nat): (r: Option<string>)
    ensures r.Some? ==> i <= |s|
    ensures (p.IdAfterSlashOrV? || p.IdAfter?) && r.Some? ==> IsVideoId(r.value)
    ensures p.DigitsField? && r.Some? ==> r.value != [] && AllDigits(r.value)
    ensures p.PageTitle? && r.Some? ==> '\n' !in r.value
  {
    if i > |s| then None
    else match p
      case IdAfterSlashOrV =>
        if StartsAt(s, i, "v=") && IdCharsAt(s, i + 2) then Some(s[i + 2..i + 2 + IdLength])
        else if StartsAt(s, i, "/") && IdCharsAt(s, i + 1) then Some(s[i + 1..i + 1 + IdLength])
        else None
      case IdAfter(prefix) =>
        if StartsAt(s, i, prefix) && IdCharsAt(s, i + |prefix|)
        then Some(s[i + |prefix|..i + |prefix| + IdLength])
        else None
      case DigitsField(key) =>
        var start := i + |FieldOpen(key)|;
        if StartsAt(s, i, FieldOpen(key)) then
          var e := DigitRunEnd(s, start);
          if start < e && StartsAt(s, e, "\"") then Some(s[start..e]) else None
        else None
      case PageTitle =>
        var start := i + |TitleOpen|;
        if StartsAt(s, i, TitleOpen) then
          match LazyTitleEnd(s, start)
          case Some(e) =>
            assert forall k :: start <= k < e ==> s[k] != '\n';
            assert forall k :: 0 <= k < e - start ==> s[start..e][k] == s[start + k];
            Some(s[start..e])
          case None => None
        else None
  }

  /** The first match at an index `i` or later. */
  function SearchFrom(p: Pattern, s: string, i: nat): Option<string>
    decreases |s| + 1 - i
  {
    if i > |s| then None
    else match MatchAt(p, s, i)
      case Some(g) => Some(g)
      case None => SearchFrom(p, s, i + 1)
  }

  /** `re.search(p, s)`, reduced to the group it captures. */
  function Search(p: Pattern, s: string): Option<string> {
    SearchFrom(p, s, 0)
  }

  lemma {:induction false} SearchFromLeftmost(p: Pattern, s: string, i: nat)
    ensures SearchFrom(p, s, i).None? <==> forall j :: i <= j <= |s| ==> MatchAt(p, s, j).None?
    ensures SearchFrom(p, s, i).Some? ==>
      exists j :: i <= j <= |s| && MatchAt(p, s, j) == SearchFrom(p, s, i)
                   && forall k :: i <= k < j ==> MatchAt(p, s, k).None?
  {
    SearchFromNone(p, s, i);
    if SearchFrom(p, s, i).Some? {
      var j := SearchFromFirst(p, s, i);
    }
  }

  /** The search from `i` finds nothing exactly when no index from `i` on matches. */
  lemma {:induction false} SearchFromNone(p: Pattern, s: string, i: nat)
    ensures SearchFrom(p, s, i).None? <==> forall j :: i <= j <= |s| ==> MatchAt(p, s, j).None?
    decreases |s| + 1 - i
  {
    if i <= |s| && MatchAt(p, s, i).None? {
      SearchFromNone(p, s, i + 1);
    }
  }

  /** A search from `i` that finds something returns the group of the first index from `i` that matches. */
  lemma {:induction false} SearchFromFirst(p: Pattern, s: string, i: nat) returns (j: nat)
    requires SearchFrom(p, s, i).Some?
    ensures i <= j <= |s| && MatchAt(p, s, j) == SearchFrom(p, s, i)
    ensures forall k :: i <= k < j ==> MatchAt(p, s, k).None?
    decreases |s| + 1 - i
  {
    if MatchAt(p, s, i).Some? {
      j := i;
    } else {
      j := SearchFromFirst(p, s, i + 1);
    }
  }

  /**
   * `Search` finds nothing exactly when no index matches, and otherwise returns
   * the group of the smallest index that matches.
   */
  lemma SearchIsLeftmost(p: Pattern, s: string)
    ensures Search(p, s).None? <==> forall j :: 0 <= j <= |s| ==> MatchAt(p, s, j).None?
    ensures Search(p, s).Some? ==>
      exists j :: 0 <= j <= |s| && MatchAt(p, s, j) == Search(p, s)
                   && forall k :: 0 <= k < j ==> MatchAt(p, s, k).None?
  {
    SearchFromLeftmost(p, s, 0);
  }

  /** Conversely: when `j` is the first index that matches, `Search` returns its group. */
  lemma SearchFindsFirst(p: Pattern, s: string, j: nat)
    requires MatchAt(p, s, j).Some?
    requires forall k :: 0 <= k < j ==> MatchAt(p, s, k).None?
    ensures Search(p, s) == MatchAt(p, s, j)
  {
    SearchIsLeftmost(p, s);
    var j' :| 0 <= j' <= |s| && MatchAt(p, s, j') == Search(p, s)
              && forall k :: 0 <= k < j' ==> MatchAt(p, s, k).None?;
    assert j' == j;
  }

  /** The index at which a successful search matched. */
  lemma SearchWitness(p: Pattern, s: string) returns (i: nat)
    requires Search(p, s).Some?
    ensures i <= |s| && MatchAt(p, s, i) == Search(p, s)
  {
    SearchIsLeftmost(p, s);
    i :| 0 <= i <= |s| && MatchAt(p, s, i) == Search(p, s);
  }
}
