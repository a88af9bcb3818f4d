/**
 * The fields the resolver reads out of a watch page (app.py): the counts behind
 * `"lengthSeconds":"…"` and `"viewCount":"…"`, converted with `int()`, and the
 * text of `<title>… - YouTube</title>`, with `Video <id>` when it is missing.
 */
module Scrape {
  import opened Wrappers
  import opened Text
  import opened Patterns

  /** `int(m.group(1))` for the first match of `"<key>":"(\d+)"` in `body`. */
  function ExtractCount(key: string, body: string): Option<nat> {
    match Search(DigitsField(key), body)
    case Some(ds) =>
      SearchIsLeftmost(DigitsField(key), body);
      Some(DecimalValue(ds))
    case None => None
  }

  function Duration(body: string): Option<nat> {
    ExtractCount("lengthSeconds", body)
  }

  function ViewCount(body: string): Option<nat> {
    ExtractCount("viewCount", body)
  }

  /** How a count appears in the page: `"<key>":"<decimal>"`. */
  function CountField(key: string, n: nat): string {
    FieldOpen(key) + DecimalString(n) + "\""
  }

  /** The scraped title, or `Video <id>` when the page has no matching title element. */
  function ScrapeTitle(id: string, html: string): (title: string)
    ensures Search(PageTitle, html).None? ==> title == "Video " + id
  {
    match Search(PageTitle, html)
    case Some(t) => t
    case None => "Video " + id
  }

  /** No match can start inside `pre` when no field opener starts there. */
  lemma NoFieldBefore(key: string, s: string, pre: string)
    requires pre + FieldOpen(key) <= s
    requires forall k :: 0 <= k < |pre| ==> !StartsAt(pre + FieldOpen(key), k, FieldOpen(key))
    ensures forall k :: 0 <= k < |pre| ==> MatchAt(DigitsField(key), s, k).None?
  {
    var open := FieldOpen(key);
    var head := pre + open;
    forall k | 0 <= k < |pre| ensures !StartsAt(s, k, open) {
      assert !StartsAt(head, k, open);
      assert s[k..k + |open|] == head[k..k + |open|];
    }
  }

  /**
   * A count written as `"<key>":"<n>"` is read back as `n`, whatever follows it
   * and whatever precedes it, as long as no other `"<key>":"` opener starts earlier.
   */
  lemma CountRoundTrip(key: string, n: nat, pre: string, post: string)
    requires forall k :: 0 <= k < |pre| ==> !StartsAt(pre + FieldOpen(key), k, FieldOpen(key))
    ensures ExtractCount(key, pre + CountField(key, n) + post) == Some(n)
  {
    var s := pre + CountField(key, n) + post;
    var open := FieldOpen(key);
    var ds := DecimalString(n);
    var i := |pre|;
    var start := i + |open|;
    assert s == pre + open + ds + "\"" + post;
    assert StartsAt(s, i, open) by {
      assert s[i..i + |open|] == open;
    }
    assert forall k :: start <= k < start + |ds| ==> s[k] == ds[k - start];
    assert s[start + |ds|] == '"';
    DigitRunStops(s, start, start + |ds|);
    assert s[start..start + |ds|] == ds;
    assert MatchAt(DigitsField(key), s, i) == Some(ds);
    assert pre + open <= s;
    NoFieldBefore(key, s, pre);
    SearchFindsFirst(DigitsField(key), s, i);
    DecimalRoundTrip(n);
  }

  /** A page in which no `"<key>":"` opener starts has no such count. */
  lemma NoFieldNoCount(key: string, body: string)
    requires forall k :: 0 <= k <= |body| ==> !StartsAt(body, k, FieldOpen(key))
    ensures ExtractCount(key, body) == None
  {
    SearchIsLeftmost(DigitsField(key), body);
  }

  /**
   * Conversely, a count that is found is `int(ds)` for a field `"<key>":"<ds>"`
   * with a non-empty run of digits `ds` that starts at index `i` of the page.
   */
  lemma CountComesFromPage(key: string, body: string) returns (i: nat, ds: string)
    requires ExtractCount(key, body).Some?
    ensures StartsAt(body, i, FieldOpen(key) + ds + "\"")
    ensures ds != [] && AllDigits(ds) && DecimalValue(ds) == ExtractCount(key, body).value
  {
    i := SearchWitness(DigitsField(key), body);
    ds := Search(DigitsField(key), body).value;
    FieldMatchShape(key, body, i);
  }

  /** A match of `"<key>":"(\d+)"` at `i` is the whole field starting there. */
  lemma FieldMatchShape(key: string, s: string, i: nat)
    requires MatchAt(DigitsField(key), s, i).Some?
    ensures StartsAt(s, i, FieldOpen(key) + MatchAt(DigitsField(key), s, i).value + "\"")
  {
    var open := FieldOpen(key);
    var start := i + |open|;
    var e := DigitRunEnd(s, start);
    var ds := s[start..e];
    assert MatchAt(DigitsField(key), s, i) == Some(ds);
    assert StartsAt(s, start, ds);
    StartsAtConcat(s, i, open, ds);
    StartsAtConcat(s, i, open + ds, "\"");
  }

  /** The greedy digit run from `j` ends at the first non-digit. */
  lemma DigitRunStops(s: string, j: nat, e: nat)
    requires j <= e < |s|
    requires forall k :: j <= k < e ==> IsDigit(s[k])
    requires !IsDigit(s[e])
    ensures DigitRunEnd(s, j) == e
    decreases e - j
  {
    if j < e { DigitRunStops(s, j + 1, e); }
  }

  /** The closing text cannot start inside a title in which it does not start. */
  lemma TitleCloseNotInside(s: string, start: nat, t: string)
    requires start + |t| + |TitleClose| <= |s|
    requires s[start..start + |t| + |TitleClose|] == t + TitleClose
    requires forall k :: 0 <= k < |t| ==> !StartsAt(t + TitleClose, k, TitleClose)
    ensures forall k :: start <= k < start + |t| ==> !StartsAt(s, k, TitleClose)
  {
    var tail := t + TitleClose;
    assert StartsAt(s, start, tail);
    forall k | start <= k < start + |t| ensures !StartsAt(s, k, TitleClose) {
      StartsAtWithin(s, start, tail, k - start, TitleClose);
    }
  }

  /** Where the title element starts, the pattern captures `t`. */
  lemma TitleMatchAt(s: string, i: nat, t: string)
    requires i + |TitleOpen| + |t| + |TitleClose| <= |s|
    requires s[i..i + |TitleOpen|] == TitleOpen
    requires s[i + |TitleOpen|..i + |TitleOpen| + |t| + |TitleClose|] == t + TitleClose
    requires '\n' !in t
    requires forall k :: 0 <= k < |t| ==> !StartsAt(t + TitleClose, k, TitleClose)
    ensures MatchAt(PageTitle, s, i) == Some(t)
  {
    var start := i + |TitleOpen|;
    var e := start + |t|;
    TitleCloseNotInside(s, start, t);
    assert s[e..e + |TitleClose|] == (t + TitleClose)[|t|..];
    forall k | start <= k < e ensures s[k] != '\n' {
      assert s[k] == (t + TitleClose)[k - start] == t[k - start];
    }
    LazyTitleStops(s, start, e);
    assert s[start..e] == (t + TitleClose)[..|t|];
  }

  /**
   * A title element `<title>t - YouTube</title>` is scraped back as `t` when `t`
   * has no newline (which the pattern's `.` does not cross), the closing text
   * does not start inside it, and no `<title>` starts before it.
   */
  lemma TitleRoundTrip(id: string, t: string, pre: string, post: string)
    requires forall k :: 0 <= k < |pre| ==> !StartsAt(pre + TitleOpen, k, TitleOpen)
    requires '\n' !in t
    requires forall k :: 0 <= k < |t| ==> !StartsAt(t + TitleClose, k, TitleClose)
    ensures ScrapeTitle(id, pre + TitleOpen + t + TitleClose + post) == t
  {
    var s := pre + TitleOpen + t + TitleClose + post;
    var i := |pre|;
    assert s == pre + (TitleOpen + ((t + TitleClose) + post));
    assert s[i..i + |TitleOpen|] == TitleOpen;
    assert s[i + |TitleOpen|..i + |TitleOpen| + |t| + |TitleClose|] == t + TitleClose;
    TitleMatchAt(s, i, t);
    assert pre + TitleOpen <= s;
    NoTitleBefore(s, pre);
    SearchFindsFirst(PageTitle, s, i);
  }

  /**
   * Conversely, a title that is not the fallback is the text of a title element
   * `<title>t - YouTube</title>` that starts at index `i` of the page.
   */
  lemma TitleComesFromPage(id: string, html: string) returns (i: nat, t: string)
    requires Search(PageTitle, html).Some?
    ensures StartsAt(html, i, TitleOpen + t + TitleClose) && '\n' !in t
    ensures ScrapeTitle(id, html) == t
  {
    i := SearchWitness(PageTitle, html);
    t := Search(PageTitle, html).value;
    TitleMatchShape(html, i);
  }

  /** A match of the title pattern at `i` is a whole title element starting there. */
  lemma TitleMatchShape(s: string, i: nat)
    requires MatchAt(PageTitle, s, i).Some?
    ensures StartsAt(s, i, TitleOpen + MatchAt(PageTitle, s, i).value + TitleClose)
  {
    var start := i + |TitleOpen|;
    var e := LazyTitleEnd(s, start).value;
    var t := s[start..e];
    assert MatchAt(PageTitle, s, i) == Some(t);
    assert StartsAt(s, start, t);
    StartsAtConcat(s, i, TitleOpen, t);
    assert StartsAt(s, e, TitleClose) && e == i + |TitleOpen + t|;
    StartsAtConcat(s, i, TitleOpen + t, TitleClose);
  }

  /** No match can start inside `pre` when no `<title>` starts there. */
  lemma NoTitleBefore(s: string, pre: string)
    requires pre + TitleOpen <= s
    requires forall k :: 0 <= k < |pre| ==> !StartsAt(pre + TitleOpen, k, TitleOpen)
    ensures forall k :: 0 <= k < |pre| ==> MatchAt(PageTitle, s, k).None?
  {
    var head := pre + TitleOpen;
    forall k | 0 <= k < |pre| ensures !StartsAt(s, k, TitleOpen) {
      assert !StartsAt(head, k, TitleOpen);
      assert s[k..k + |TitleOpen|] == head[k..k + |TitleOpen|];
    }
  }

  /** A page in which no `<title>` starts is given the title `Video <id>`. */
  lemma UntitledPage(id: string, html: string)
    requires forall k :: 0 <= k <= |html| ==> !StartsAt(html, k, TitleOpen)
    ensures ScrapeTitle(id, html) == "Video " + id
  {
    SearchIsLeftmost(PageTitle, html);
  }

  /** The lazy group from `j` ends at the first index where the closing text starts. */
  lemma LazyTitleStops(s: string, j: nat, e: nat)
    requires j <= e <= |s| && StartsAt(s, e, TitleClose)
    requires forall k :: j <= k < e ==> s[k] != '\n' && !StartsAt(s, k, TitleClose)
    ensures LazyTitleEnd(s, j) == Some(e)
    decreases e - j
  {
    if j < e { LazyTitleStops(s, j + 1, e); }
  }
}
