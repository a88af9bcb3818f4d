/**
 * What `get_video_id` makes of the URL shapes the service advertises: the short
 * link, `/embed/` and `/shorts/` paths give the identifier whatever follows it,
 * the `watch?v=` form loses its identifier with the query, and a foreign host
 * is accepted as readily as the platform's own.
 */
module UrlShapes {
  import opened Wrappers
  import opened Text
  import opened Patterns
  import opened VideoIds

  lemma NoAnchorBetween(c: string, lo: nat, hi: nat)
    requires lo <= hi <= |c|
    requires '/' !in c[lo..hi] && 'v' !in c[lo..hi]
    ensures forall k :: lo <= k < hi ==> !Anchor(c, k)
  {
    forall k | lo <= k < hi ensures !Anchor(c, k) {
      assert c[k] == c[lo..hi][k - lo];
    }
  }

  lemma NoAnchorBehindSlash(c: string, k: nat, m: nat)
    requires k < m <= k + IdLength && m < |c|
    requires c[k] == '/' && !IsIdChar(c[m])
    ensures !Anchor(c, k)
  {
  }

  /** When the anchor at `q` is a `/` and nothing before it is an anchor, its identifier is the result. */
  lemma FirstSlashAnchorWins(url: string, q: nat)
    requires SlashAnchor(CleanUrl(url), q)
    requires forall k :: 0 <= k < q ==> !Anchor(CleanUrl(url), k)
    ensures VideoId(url) == Some(CleanUrl(url)[q + 1..q + 1 + IdLength])
  {
    var c := CleanUrl(url);
    LaterPatternsSubsumed(c);
    forall k | 0 <= k < q ensures MatchAt(IdAfterSlashOrV, c, k).None? {
      FirstPatternMatchesAtAnchor(c, k);
    }
    FirstPatternMatchesAtAnchor(c, q);
    SearchFindsFirst(IdAfterSlashOrV, c, q);
  }

  lemma {:induction false} CleanUrlKeepsPrefix(pre: string, rest: string)
    requires '?' !in pre
    ensures CleanUrl(pre + rest) == pre + CleanUrl(rest)
  {
    if pre != [] {
      assert (pre + rest)[1..] == pre[1..] + rest;
      CleanUrlKeepsPrefix(pre[1..], rest);
      assert [pre[0]] + (pre[1..] + CleanUrl(rest)) == pre + CleanUrl(rest);
    } else {
      assert pre + rest == rest;
    }
  }

  /** The cleaned form of `host + id + rest`, for a host part without `?`. */
  lemma CleanedShape(host: string, id: string, rest: string)
    requires '?' !in host && IsVideoId(id)
    ensures CleanUrl(host + id + rest) == host + id + CleanUrl(rest)
    ensures |CleanUrl(host + id + rest)| >= |host| + IdLength
    ensures CleanUrl(host + id + rest)[|host|..|host| + IdLength] == id
  {
    assert '?' !in id by {
      forall k | 0 <= k < |id| ensures id[k] != '?' {
        assert IsIdChar(id[k]);
      }
    }
    assert '?' !in host + id;
    CleanUrlKeepsPrefix(host + id, rest);
    var c := host + id + CleanUrl(rest);
    assert c == host + (id + CleanUrl(rest));
    assert c[|host|..|host| + IdLength] == (id + CleanUrl(rest))[..IdLength];
  }

  lemma IdCharsFollow(c: string, host: string, id: string)
    requires IsVideoId(id) && |c| >= |host| + IdLength && c[|host|..|host| + IdLength] == id
    requires |host| >= 1 && c[|host| - 1] == '/'
    ensures SlashAnchor(c, |host| - 1)
  {
    forall k | |host| <= k < |host| + IdLength ensures IsIdChar(c[k]) {
      assert c[k] == id[k - |host|];
    }
  }

  const ShortLinkHost := "https://youtu.be/"
  const EmbedHost := "https://www.youtube.com/embed/"
  const ShortsHost := "https://www.youtube.com/shorts/"

  lemma ShortLinkHostUnanchored(c: string)
    requires |c| >= |ShortLinkHost| && c[..|ShortLinkHost|] == ShortLinkHost
    ensures forall k :: 0 <= k < |ShortLinkHost| - 1 ==> !Anchor(c, k)
  {
    var host := ShortLinkHost;
    assert c[0..6] == c[..|host|][0..6] == host[0..6] == "https:";
    assert c[8..16] == c[..|host|][8..16] == host[8..16] == "youtu.be";
    assert c[6] == host[6] == '/' && c[7] == host[7] == '/' && c[13] == host[13] == '.';
    forall k | 0 <= k < |ShortLinkHost| - 1 ensures !Anchor(c, k) {
      if k < 6 {
        NoAnchorBetween(c, 0, 6);
      } else if k == 6 {
        NoAnchorBehindSlash(c, 6, 7);
      } else if k == 7 {
        NoAnchorBehindSlash(c, 7, 13);
      } else {
        NoAnchorBetween(c, 8, 16);
      }
    }
  }

  /** Shared by the two paths under `https://www.youtube.com/`; `segment` is `embed` or `shorts`. */
  lemma PlatformPathUnanchored(c: string, segment: string)
    requires 'v' !in segment && '/' !in segment
    requires |c| >= 24 + |segment| + 1 && c[..24] == "https://www.youtube.com/"
    requires c[24..24 + |segment|] == segment && c[24 + |segment|] == '/'
    requires |segment| < IdLength
    ensures forall k :: 0 <= k < 24 + |segment| ==> !Anchor(c, k)
  {
    var host := "https://www.youtube.com/";
    assert c[0..6] == c[..24][0..6] == host[0..6] == "https:";
    assert c[8..23] == c[..24][8..23];
    assert host[8..23] == "www.youtube.com";
    assert c[6] == host[6] == '/' && c[7] == host[7] == '/' && c[11] == host[11] == '.';
    assert c[23] == host[23] == '/';
    forall k | 0 <= k < 24 + |segment| ensures !Anchor(c, k) {
      if k < 6 {
        NoAnchorBetween(c, 0, 6);
      } else if k == 6 {
        NoAnchorBehindSlash(c, 6, 7);
      } else if k == 7 {
        NoAnchorBehindSlash(c, 7, 11);
      } else if k < 23 {
        NoAnchorBetween(c, 8, 23);
      } else if k == 23 {
        NoAnchorBehindSlash(c, 23, 24 + |segment|);
      } else {
        NoAnchorBetween(c, 24, 24 + |segment|);
      }
    }
  }

  /** `https://youtu.be/<id>` followed by anything gives `<id>`. */
  lemma ShortLinkGivesId(id: string, rest: string)
    requires IsVideoId(id)
    ensures VideoId(ShortLinkHost + id + rest) == Some(id)
  {
    var url := ShortLinkHost + id + rest;
    CleanedShape(ShortLinkHost, id, rest);
    var c := CleanUrl(url);
    assert c[..|ShortLinkHost|] == ShortLinkHost;
    ShortLinkHostUnanchored(c);
    IdCharsFollow(c, ShortLinkHost, id);
    FirstSlashAnchorWins(url, |ShortLinkHost| - 1);
  }

  lemma PlatformPathFacts(c: string, segment: string)
    requires |c| >= 25 + |segment| && c[..25 + |segment|] == "https://www.youtube.com/" + segment + "/"
    ensures c[..24] == "https://www.youtube.com/" && c[24..24 + |segment|] == segment && c[24 + |segment|] == '/'
  {
    var h := "https://www.youtube.com/" + segment + "/";
    assert c[..24] == h[..24];
    assert c[24..24 + |segment|] == h[24..24 + |segment|];
    assert c[24 + |segment|] == h[24 + |segment|];
  }

  /** `https://www.youtube.com/<segment>/<id>` followed by anything gives `<id>`. */
  lemma PlatformPathGivesId(segment: string, id: string, rest: string)
    requires 'v' !in segment && '/' !in segment && '?' !in segment && |segment| < IdLength
    requires IsVideoId(id)
    ensures VideoId("https://www.youtube.com/" + segment + "/" + id + rest) == Some(id)
  {
    var host := "https://www.youtube.com/" + segment + "/";
    var url := host + id + rest;
    assert '?' !in host;
    CleanedShape(host, id, rest);
    var c := CleanUrl(url);
    assert c[..|host|] == host;
    PlatformPathFacts(c, segment);
    PlatformPathUnanchored(c, segment);
    IdCharsFollow(c, host, id);
    FirstSlashAnchorWins(url, |host| - 1);
  }

  /** `https://www.youtube.com/embed/<id>` followed by anything gives `<id>`. */
  lemma EmbedPathGivesId(id: string, rest: string)
    requires IsVideoId(id)
    ensures VideoId(EmbedHost + id + rest) == Some(id)
  {
    assert EmbedHost == "https://www.youtube.com/" + "embed" + "/";
    PlatformPathGivesId("embed", id, rest);
  }

  /** `https://www.youtube.com/shorts/<id>` followed by anything gives `<id>`. */
  lemma ShortsPathGivesId(id: string, rest: string)
    requires IsVideoId(id)
    ensures VideoId(ShortsHost + id + rest) == Some(id)
  {
    assert ShortsHost == "https://www.youtube.com/" + "shorts" + "/";
    PlatformPathGivesId("shorts", id, rest);
  }

  const WatchPage := "https://www.youtube.com/watch"

  lemma WatchPageUnanchored()
    ensures forall k :: 0 <= k <= |WatchPage| ==> !Anchor(WatchPage, k)
  {
    var c := "https://www.youtube.com/watch";
    assert c[0..6] == "https:" && c[8..23] == "www.youtube.com" && c[24..29] == "watch";
    forall k | 0 <= k <= |c| ensures !Anchor(c, k) {
      if k < 6 {
        NoAnchorBetween(c, 0, 6);
      } else if k == 6 {
        NoAnchorBehindSlash(c, 6, 7);
      } else if k == 7 {
        NoAnchorBehindSlash(c, 7, 11);
      } else if k < 23 {
        NoAnchorBetween(c, 8, 23);
      } else if k > 23 {
        NoAnchorBetween(c, 24, 29);
      }
    }
  }

  /**
   * The canonical `watch?v=<id>` form gives no identifier at all: the cut at the
   * first `?` removes the `v=` parameter, and `https://www.youtube.com/watch`
   * has no `/` with eleven identifier characters behind it.
   */
  lemma WatchUrlLosesId(id: string)
    ensures VideoId(WatchPage + "?v=" + id) == None
  {
    var url := WatchPage + "?v=" + id;
    assert url == WatchPage + "?" + ("v=" + id);
    CleanUrlDropsQuery(WatchPage, "v=" + id);
    WatchPageUnanchored();
    VideoIdIsLeftmostAnchor(url);
  }

  const ForeignHost := "https://example.com/"

  lemma ForeignHostUnanchored(c: string)
    requires |c| >= |ForeignHost| && c[..|ForeignHost|] == ForeignHost
    ensures forall k :: 0 <= k < |ForeignHost| - 1 ==> !Anchor(c, k)
  {
    var host := ForeignHost;
    assert c[0..6] == c[..|host|][0..6] == host[0..6] == "https:";
    assert c[8..19] == c[..|host|][8..19] == host[8..19] == "example.com";
    assert c[6] == host[6] == '/' && c[7] == host[7] == '/' && c[15] == host[15] == '.';
    forall k | 0 <= k < |host| - 1 ensures !Anchor(c, k) {
      if k < 6 {
        NoAnchorBetween(c, 0, 6);
      } else if k == 6 {
        NoAnchorBehindSlash(c, 6, 7);
      } else if k == 7 {
        NoAnchorBehindSlash(c, 7, 15);
      } else {
        NoAnchorBetween(c, 8, 19);
      }
    }
  }

  /** The host is never checked: a path segment of eleven identifier characters on any site is taken. */
  lemma ForeignHostAccepted(id: string, rest: string)
    requires IsVideoId(id)
    ensures VideoId(ForeignHost + id + rest) == Some(id)
  {
    var url := ForeignHost + id + rest;
    CleanedShape(ForeignHost, id, rest);
    var c := CleanUrl(url);
    assert c[..|ForeignHost|] == ForeignHost;
    ForeignHostUnanchored(c);
    IdCharsFollow(c, ForeignHost, id);
    FirstSlashAnchorWins(url, |ForeignHost| - 1);
  }
}
