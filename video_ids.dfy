/**
 * `get_video_id` (app.py): the URL is cut at its first `?`, then four patterns
 * are tried in order with `re.search` and the first group found is the
 * identifier. The host is never looked at.
 */
module VideoIds {
  import opened Wrappers
  import opened Text
  import opened Patterns

  /** The pattern list, in the order the loop tries it. */
  const VideoIdPatterns: seq<Pattern> :=
    [IdAfterSlashOrV, IdAfter("youtu.be/"), IdAfter("embed/"), IdAfter("shorts/")]

  /** `url.split('?')[0]`: the longest prefix of `url` without a `?`. */
  function CleanUrl(url: string): (c: string)
    ensures c <= url && '?' !in c
    ensures |c| < |url| ==> url[|c|] == '?'
  {
    if url == [] || url[0] == '?' then [] else [url[0]] + CleanUrl(url[1..])
  }

  /** The first group that one of `ps`, tried in order, finds in `s`. */
  function FirstMatch(ps: seq<Pattern>, s: string): Option<string> {
    if ps == [] then None
    else match Search(ps[0], s)
      case Some(g) => Some(g)
      case None => FirstMatch(ps[1..], s)
  }

  /** What `get_video_id(url)` returns. */
  function VideoId(url: string): Option<string> {
    FirstMatch(VideoIdPatterns, CleanUrl(url))
  }

  /** The loop of `get_video_id`: each pattern in turn, returning on the first match. */
  method GetVideoId(url: string) returns (id: Option<string>)
    ensures id == VideoId(url)
    ensures id.Some? ==> IsVideoId(id.value)
  {
    var clean := CleanUrl(url);
    var k := 0;
    while k < |VideoIdPatterns|
      invariant 0 <= k <= |VideoIdPatterns|
      invariant FirstMatch(VideoIdPatterns[k..], clean) == FirstMatch(VideoIdPatterns, clean)
    {
      var found := Search(VideoIdPatterns[k], clean);
      if found.Some? {
        SearchIsLeftmost(VideoIdPatterns[k], clean);
        return found;
      }
      assert VideoIdPatterns[k..][1..] == VideoIdPatterns[k + 1..];
      k := k + 1;
    }
    return None;
  }

  lemma GetVideoIdWellFormed(url: string)
    ensures VideoId(url).Some? ==> IsVideoId(VideoId(url).value)
  {
    LaterPatternsSubsumed(CleanUrl(url));
    SearchIsLeftmost(IdAfterSlashOrV, CleanUrl(url));
  }

  // ---------------------------------------------------------------------------
  // The identifier in terms of the cleaned URL's characters

  /** `/` at `i`, followed by eleven identifier characters. */
  ghost predicate SlashAnchor(s: string, i: nat) {
    i < |s| && s[i] == '/' && i + 1 + IdLength <= |s|
    && forall k :: i + 1 <= k < i + 1 + IdLength ==> IsIdChar(s[k])
  }

  /** `v=` at `i`, followed by eleven identifier characters. */
  ghost predicate VEqAnchor(s: string, i: nat) {
    i + 1 < |s| && s[i] == 'v' && s[i + 1] == '=' && i + 2 + IdLength <= |s|
    && forall k :: i + 2 <= k < i + 2 + IdLength ==> IsIdChar(s[k])
  }

  ghost predicate Anchor(s: string, i: nat) {
    SlashAnchor(s, i) || VEqAnchor(s, i)
  }

  /** Where the identifier behind the anchor at `i` starts. */
  ghost function IdStart(s: string, i: nat): nat {
    if VEqAnchor(s, i) then i + 2 else i + 1
  }

  lemma FirstPatternMatchesAtAnchor(s: string, i: nat)
    ensures MatchAt(IdAfterSlashOrV, s, i).Some? <==> Anchor(s, i)
    ensures Anchor(s, i) ==> MatchAt(IdAfterSlashOrV, s, i).value == s[IdStart(s, i)..IdStart(s, i) + IdLength]
  {
    if i + 2 <= |s| {
      assert s[i..i + 2] == [s[i], s[i + 1]];
    }
    if i + 1 <= |s| {
      assert s[i..i + 1] == [s[i]];
    }
    assert StartsAt(s, i, "v=") <==> i + 1 < |s| && s[i] == 'v' && s[i + 1] == '=';
    assert StartsAt(s, i, "/") <==> i < |s| && s[i] == '/';
  }

  /**
   * Patterns 2 to 4 never decide the result: each ends in `/`, so wherever one of
   * them matches, the first pattern matches at that `/` and hence at that index or
   * earlier. The loop therefore returns in its first round or returns `None`.
   */
  lemma {:induction false} LaterPatternsSubsumed(s: string)
    ensures FirstMatch(VideoIdPatterns, s) == Search(IdAfterSlashOrV, s)
  {
    var ps := VideoIdPatterns;
    assert ps[0] == IdAfterSlashOrV && ps[1..][0] == IdAfter("youtu.be/");
    assert ps[1..][1..][0] == IdAfter("embed/") && ps[1..][1..][1..][0] == IdAfter("shorts/");
    assert ps[1..][1..][1..][1..] == [];
    if Search(IdAfterSlashOrV, s).None? {
      forall prefix | prefix in ["youtu.be/", "embed/", "shorts/"]
        ensures Search(IdAfter(prefix), s).None?
      {
        SearchIsLeftmost(IdAfter(prefix), s);
        if Search(IdAfter(prefix), s).Some? {
          var j :| 0 <= j <= |s| && MatchAt(IdAfter(prefix), s, j).Some?;
          var slash := j + |prefix| - 1;
          assert s[slash] == prefix[|prefix| - 1];
          assert Anchor(s, slash);
          FirstPatternMatchesAtAnchor(s, slash);
          SearchIsLeftmost(IdAfterSlashOrV, s);
          assert false;
        }
      }
      assert Search(ps[1..][0], s).None? && Search(ps[1..][1..][0], s).None?;
      assert Search(ps[1..][1..][1..][0], s).None?;
      calc {
        FirstMatch(ps, s);
        FirstMatch(ps[1..], s);
        FirstMatch(ps[1..][1..], s);
        FirstMatch(ps[1..][1..][1..], s);
        FirstMatch(ps[1..][1..][1..][1..], s);
      }
    }
  }

  /** The result depends only on the part of the URL before its first `?`. */
  lemma {:induction false} VideoIdIgnoresQuery(url: string)
    ensures VideoId(url) == VideoId(CleanUrl(url))
  {
    CleanUrlIdempotent(url);
  }

  lemma {:induction false} CleanUrlIdempotent(url: string)
    ensures CleanUrl(CleanUrl(url)) == CleanUrl(url)
  {
    if url != [] && url[0] != '?' {
      CleanUrlIdempotent(url[1..]);
      assert ([url[0]] + CleanUrl(url[1..]))[1..] == CleanUrl(url[1..]);
    }
  }

  /** Whatever follows the first `?` is dropped. */
  lemma {:induction false} CleanUrlDropsQuery(path: string, query: string)
    requires '?' !in path
    ensures CleanUrl(path + "?" + query) == path
    ensures CleanUrl(path) == path
  {
    if path != [] {
      assert (path + "?" + query)[1..] == path[1..] + "?" + query;
      CleanUrlDropsQuery(path[1..], query);
    } else {
      assert (path + "?" + query)[0] == '?';
    }
  }

  /** The eleven characters behind the anchor at `i`. */
  ghost function TakenAt(s: string, i: nat): string
    requires Anchor(s, i)
  {
    s[IdStart(s, i)..IdStart(s, i) + IdLength]
  }

  /** `i` is an anchor of `s` and no index before it is one. */
  ghost predicate LeftmostAnchor(s: string, i: nat) {
    i <= |s| && Anchor(s, i) && forall k :: 0 <= k < i ==> !Anchor(s, k)
  }

  /**
   * A found identifier is eleven identifier characters taken from the cleaned URL
   * right after the leftmost `/` or `v=` that has eleven such characters behind it.
   * `None` is returned exactly when the cleaned URL has no such anchor.
   */
  lemma VideoIdIsLeftmostAnchor(url: string)
    ensures VideoId(url).None? ==> forall i :: 0 <= i <= |CleanUrl(url)| ==> !Anchor(CleanUrl(url), i)
    ensures (forall i :: 0 <= i <= |CleanUrl(url)| ==> !Anchor(CleanUrl(url), i)) ==> VideoId(url).None?
    ensures VideoId(url).Some? ==>
      exists i :: LeftmostAnchor(CleanUrl(url), i) && VideoId(url).value == TakenAt(CleanUrl(url), i)
  {
    var c := CleanUrl(url);
    assert VideoId(url) == FirstMatch(VideoIdPatterns, c);
    LaterPatternsSubsumed(c);
    if VideoId(url).None? {
      NoMatchNoAnchor(c);
    } else {
      var i := LeftmostMatchIsLeftmostAnchor(c);
      assert Anchor(c, i);
    }
  }

  /** When pattern 1 finds nothing, the string has no anchor. */
  lemma NoMatchNoAnchor(s: string)
    requires Search(IdAfterSlashOrV, s).None?
    ensures forall i :: 0 <= i <= |s| ==> !Anchor(s, i)
  {
    SearchIsLeftmost(IdAfterSlashOrV, s);
    forall i | 0 <= i <= |s| ensures !Anchor(s, i) {
      FirstPatternMatchesAtAnchor(s, i);
    }
  }

  /** What pattern 1 finds is the identifier behind the leftmost anchor `i`. */
  lemma LeftmostMatchIsLeftmostAnchor(s: string) returns (i: nat)
    requires Search(IdAfterSlashOrV, s).Some?
    ensures LeftmostAnchor(s, i)
    ensures Search(IdAfterSlashOrV, s).value == TakenAt(s, i)
  {
    SearchIsLeftmost(IdAfterSlashOrV, s);
    i :| 0 <= i <= |s| && MatchAt(IdAfterSlashOrV, s, i) == Search(IdAfterSlashOrV, s)
         && forall k :: 0 <= k < i ==> MatchAt(IdAfterSlashOrV, s, k).None?;
    FirstPatternMatchesAtAnchor(s, i);
    forall k | 0 <= k < i ensures !Anchor(s, k) {
      FirstPatternMatchesAtAnchor(s, k);
    }
  }

  /** `id` is the piece of `c` at `q`, right after a `/` or a `v=`. */
  ghost predicate TakenAfterAnchor(c: string, q: nat, id: string) {
    1 <= q && q + IdLength <= |c| && id == c[q..q + IdLength]
    && (c[q - 1] == '/' || (q >= 2 && c[q - 2..q] == "v="))
  }

  lemma AnchorIsTaken(c: string, i: nat)
    requires Anchor(c, i)
    ensures TakenAfterAnchor(c, IdStart(c, i), c[IdStart(c, i)..IdStart(c, i) + IdLength])
  {
    var q := IdStart(c, i);
    if VEqAnchor(c, i) {
      assert c[q - 2..q] == [c[i], c[i + 1]];
    }
  }

  /** A found identifier is well formed and a contiguous piece of the cleaned URL. */
  lemma VideoIdShape(url: string)
    ensures var c := CleanUrl(url);
      VideoId(url).Some? ==>
        IsVideoId(VideoId(url).value)
        && exists q :: TakenAfterAnchor(c, q, VideoId(url).value)
  {
    var c := CleanUrl(url);
    VideoIdIsLeftmostAnchor(url);
    if VideoId(url).Some? {
      var i :| LeftmostAnchor(c, i)
                && VideoId(url).value == c[IdStart(c, i)..IdStart(c, i) + IdLength];
      AnchorIsTaken(c, i);
      GetVideoIdWellFormed(url);
    }
  }
}
