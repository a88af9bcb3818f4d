/**
 * `get_youtube_info_alternative` (app.py): three strategies tried in order --
 * the oEmbed endpoint (with the watch page for duration and views), the iframe
 * endpoint, and a scrape of the watch page -- and the first that answers 200 wins.
 * Upstream answers are inputs; the model also records which requests were made.
 */
module Resolver {
  import opened Wrappers
  import opened Text
  import opened Patterns
  import opened Scrape
  import opened Thumbnails

  /** An HTTP answer whose body is read as text. */
  datatype PageReply = PageReply(status: int, body: string)

  /** An HTTP answer whose body is read as a JSON object of string fields. */
  datatype JsonReply = JsonReply(status: int, fields: map<string, string>)

  /** What each endpoint would answer for this video. */
  datatype Upstream = Upstream(oembed: JsonReply, page: PageReply, iframe: JsonReply, html: PageReply)

  datatype Request = Get(url: string) | Head(url: string)

  /** The `data` object, one shape per strategy (each also carries `type: "video"`). */
  datatype VideoData =
    | OEmbedData(videoId: string, title: string, authorName: string, authorUrl: string,
                 thumbnailUrl: string, duration: Option<nat>, viewCount: Option<nat>, webpageUrl: string)
    | IframeData(videoId: string, title: string, thumbnailUrl: string)
    | PageData(videoId: string, title: string, thumbnailUrl: string, webpageUrl: string)

  datatype FetchResult = Fetched(data: VideoData) | FetchFailed(error: string)

  datatype Resolution = Resolution(result: FetchResult, requests: seq<Request>)

  const AllMethodsFailed := "All methods failed"

  function WatchUrl(id: string): string {
    "https://www.youtube.com/watch?v=" + id
  }

  function OEmbedUrl(id: string): string {
    "https://www.youtube.com/oembed?url=" + WatchUrl(id) + "&format=json"
  }

  function IframeUrl(id: string): string {
    "https://www.youtube.com/iframe_api/v1/videos/" + id
  }

  /** `data.get(key, '')`. */
  function FieldOr(fields: map<string, string>, key: string): string {
    if key in fields then fields[key] else ""
  }

  function Resolve(id: string, up: Upstream): (r: Resolution)
    ensures r.result.Fetched? <==> up.oembed.status == 200 || up.iframe.status == 200 || up.html.status == 200
    ensures r.result.Fetched? ==> r.result.data.videoId == id
    ensures r.result.FetchFailed? ==> r.result.error == AllMethodsFailed
    ensures 2 <= |r.requests| <= 3 && r.requests[0] == Get(OEmbedUrl(id))
  {
    if up.oembed.status == 200 then
      var duration := if up.page.status == 200 then Duration(up.page.body) else None;
      var viewCount := ViewCount(up.page.body);
      var data := OEmbedData(id, FieldOr(up.oembed.fields, "title"), FieldOr(up.oembed.fields, "author_name"),
                             FieldOr(up.oembed.fields, "author_url"), FieldOr(up.oembed.fields, "thumbnail_url"),
                             duration, viewCount, WatchUrl(id));
      Resolution(Fetched(data), [Get(OEmbedUrl(id)), Get(WatchUrl(id))])
    else if up.iframe.status == 200 then
      var data := IframeData(id, FieldOr(up.iframe.fields, "title"), ThumbnailUrl(id, "maxresdefault.jpg"));
      Resolution(Fetched(data), [Get(OEmbedUrl(id)), Get(IframeUrl(id))])
    else
      var requests := [Get(OEmbedUrl(id)), Get(IframeUrl(id)), Get(WatchUrl(id))];
      if up.html.status == 200 then
        var data := PageData(id, ScrapeTitle(id, up.html.body), ThumbnailUrl(id, "maxresdefault.jpg"), WatchUrl(id));
        Resolution(Fetched(data), requests)
      else
        Resolution(FetchFailed(AllMethodsFailed), requests)
  }

  /**
   * The strategies are tried in order: each later endpoint is asked only when
   * every earlier one answered something other than 200, and the strategy that
   * supplies the data is the first that answered 200.
   */
  lemma StrategiesInOrder(id: string, up: Upstream)
    ensures var r := Resolve(id, up);
      && (Get(IframeUrl(id)) in r.requests <==> up.oembed.status != 200)
      && (|r.requests| == 3 <==> up.oembed.status != 200 && up.iframe.status != 200)
      && (r.result.Fetched? && r.result.data.OEmbedData? <==> up.oembed.status == 200)
      && (r.result.Fetched? && r.result.data.IframeData? <==> up.oembed.status != 200 && up.iframe.status == 200)
      && (r.result.Fetched? && r.result.data.PageData? <==>
            up.oembed.status != 200 && up.iframe.status != 200 && up.html.status == 200)
  {
  }

  /** When every endpoint fails, all three were asked, in order, and the reason is reported. */
  lemma AllFailures(id: string, up: Upstream)
    requires up.oembed.status != 200 && up.iframe.status != 200 && up.html.status != 200
    ensures Resolve(id, up) ==
      Resolution(FetchFailed("All methods failed"), [Get(OEmbedUrl(id)), Get(IframeUrl(id)), Get(WatchUrl(id))])
  {
  }

  /** oEmbed fields are copied when present and default to the empty string. */
  lemma OEmbedFieldsCopied(id: string, up: Upstream)
    requires up.oembed.status == 200
    ensures var d := Resolve(id, up).result.data;
      && (d.title == if "title" in up.oembed.fields then up.oembed.fields["title"] else "")
      && (d.authorName == if "author_name" in up.oembed.fields then up.oembed.fields["author_name"] else "")
      && (d.authorUrl == if "author_url" in up.oembed.fields then up.oembed.fields["author_url"] else "")
      && (d.thumbnailUrl == if "thumbnail_url" in up.oembed.fields then up.oembed.fields["thumbnail_url"] else "")
      && d.webpageUrl == WatchUrl(id)
  {
  }

  /** The iframe strategy copies `title` when present, defaulting to the empty string. */
  lemma IframeFieldsCopied(id: string, up: Upstream)
    requires up.oembed.status != 200 && up.iframe.status == 200
    ensures Resolve(id, up).result.data.title ==
      if "title" in up.iframe.fields then up.iframe.fields["title"] else ""
  {
  }

  /**
   * The duration is read only from a page that loaded (200); the view count is
   * read from the page body whatever its status.
   */
  lemma PageCountsRead(id: string, up: Upstream)
    requires up.oembed.status == 200
    ensures var d := Resolve(id, up).result.data;
      && d.duration == (if up.page.status == 200 then Duration(up.page.body) else None)
      && d.viewCount == ViewCount(up.page.body)
  {
  }

  /** A page stating `"lengthSeconds":"<n>"` gives the duration `n`, but only when it answered 200. */
  lemma DurationNeedsLoadedPage(id: string, up: Upstream, n: nat, pre: string, post: string)
    requires up.oembed.status == 200
    requires up.page.body == pre + CountField("lengthSeconds", n) + post
    requires forall k :: 0 <= k < |pre| ==>
      !StartsAt(pre + FieldOpen("lengthSeconds"), k, FieldOpen("lengthSeconds"))
    ensures Resolve(id, up).result.data.duration == if up.page.status == 200 then Some(n) else None
  {
    CountRoundTrip("lengthSeconds", n, pre, post);
  }

  /** A page stating `"viewCount":"<n>"` gives the view count `n`, whatever its status. */
  lemma ViewCountIgnoresPageStatus(id: string, up: Upstream, n: nat, pre: string, post: string)
    requires up.oembed.status == 200
    requires up.page.body == pre + CountField("viewCount", n) + post
    requires forall k :: 0 <= k < |pre| ==>
      !StartsAt(pre + FieldOpen("viewCount"), k, FieldOpen("viewCount"))
    ensures Resolve(id, up).result.data.viewCount == Some(n)
  {
    CountRoundTrip("viewCount", n, pre, post);
  }

  /** The two fallback strategies report the `maxres` entry of the thumbnail table. */
  lemma FallbackThumbnailIsMaxres(id: string, up: Upstream)
    requires up.oembed.status != 200
    requires up.iframe.status == 200 || up.html.status == 200
    ensures Resolve(id, up).result.data.thumbnailUrl == QualityTable(id)["maxres"]
  {
  }

  /** The last strategy reports the text of the page's first title element. */
  lemma PageTitleReported(id: string, up: Upstream, t: string, pre: string, post: string)
    requires up.oembed.status != 200 && up.iframe.status != 200 && up.html.status == 200
    requires up.html.body == pre + "<title>" + t + " - YouTube</title>" + post
    requires forall k :: 0 <= k < |pre| ==> !StartsAt(pre + "<title>", k, "<title>")
    requires '\n' !in t
    requires forall k :: 0 <= k < |t| ==> !StartsAt(t + " - YouTube</title>", k, " - YouTube</title>")
    ensures Resolve(id, up).result.data.title == t
  {
    TitleRoundTrip(id, t, pre, post);
  }

  /** A page without a title element makes the last strategy report `Video <id>`. */
  lemma UntitledPageReported(id: string, up: Upstream)
    requires up.oembed.status != 200 && up.iframe.status != 200 && up.html.status == 200
    requires forall k :: 0 <= k <= |up.html.body| ==> !StartsAt(up.html.body, k, "<title>")
    ensures Resolve(id, up).result.data.title == "Video " + id
  {
    UntitledPage(id, up.html.body);
  }
}
