# Yt-info: a Dafny model of the video-ID, thumbnail and resolver logic

The service in `app.py` is a small HTTP proxy. It takes a video URL, pulls out
an 11-character video identifier, and returns metadata or thumbnail URLs for it.
This project models the part of `app.py` that is not web-framework or network
plumbing. That part has four pieces:

- **`get_video_id`**: cut the URL at its first `?`, then try four regular
  expressions in order with `re.search`. The model covers the cut, the four
  patterns, the leftmost search and the loop over the patterns
  (`video_ids.dfy`, `patterns.dfy`).
- **Page scrapers**: the `"lengthSeconds":"(\d+)"` and `"viewCount":"(\d+)"`
  extractions with `int()`, and the `<title>(.*?) - YouTube</title>` scrape
  with its `Video <id>` fallback (`scrape.dfy`).
- **Thumbnails**: the five-entry quality table of `youtube_thumbnail`, the
  `maxres` fallback for an unknown quality and the `high` fallback after a
  failed existence check (`thumbnails.dfy`).
- **Resolver and endpoints**: the fallback chain of
  `get_youtube_info_alternative` (oEmbed, then iframe API, then HTML page), and
  the status codes and JSON envelopes of `youtube_info`, `youtube_thumbnail` and
  `extract_video_id` (`resolver.dfy`, `handlers.dfy`).

Network answers are inputs. An `Upstream` record holds the status and body
each endpoint would return. The model also records the outbound requests in
order, so "nothing was fetched" can be stated and proved.

The code is modelled as written. A few consequences are proved as lemmas in
`url_shapes.dfy`:

- A `https://www.youtube.com/watch?v=<id>` URL yields no identifier. The cut
  at `?` removes the `v=` parameter.
- `youtu.be/`, `/embed/` and `/shorts/` URLs do yield the identifier.
- Any host is accepted, e.g. `https://example.com/<id>`.
- Patterns 2–4 can never decide the result: the loop's outcome equals
  pattern 1's search alone (`LaterPatternsSubsumed`). Each of patterns 2–4
  ends in `/`, so a match of one of them starting at index j gives a
  pattern 1 match (`/` followed by 11 identifier characters) at the index of
  that final `/`, j plus the prefix length minus one. When pattern 1 finds
  nothing, neither do they; when it finds something, the loop returns it in
  its first round.

Consequences visible in the source itself:

- The example URL the service gives in its own error and home replies,
  `https://www.youtube.com/watch?v=dQw4w9WgXcQ` (app.py:145 and app.py:287),
  is rejected by `get_video_id`: it is an instance of `WatchUrlLosesId`.
- When every strategy fails, the resolver's error is always the fixed text
  `All methods failed` (app.py:132), not the reason of any one strategy.

## Model

| member | source | states |
|---|---|---|
| VideoIds.CleanUrl | app.py:22 | the result is the longest prefix of the URL without `?`: a prefix, `?`-free, and followed by `?` when shorter |
| VideoIds.CleanUrlDropsQuery | app.py:22 | everything from the first `?` on is dropped, and a `?`-free URL is unchanged |
| VideoIds.VideoIdIgnoresQuery | app.py:22 | the extracted identifier depends only on the part of the URL before its first `?` |
| VideoIds.VideoId | app.py:18-36 | what `get_video_id` returns: the first pattern's search over the cleaned URL, in list order; it has no contract of its own, and `VideoIdIsLeftmostAnchor`, `VideoIdShape` and `LaterPatternsSubsumed` state what it means |
| VideoIds.FirstMatch | app.py:31-36 | the first group any pattern of the list finds, in list order; no contract of its own, `GetVideoId` is proved equal to it and `LaterPatternsSubsumed` states its value on the four patterns |
| VideoIds.GetVideoId | app.py:18-36 | the pattern loop with early return computes exactly the first group any pattern finds, in list order, and that group is a well-formed identifier |
| VideoIds.GetVideoIdWellFormed | app.py:25-34 | any identifier returned is 11 characters from `[0-9A-Za-z_-]` |
| VideoIds.FirstPatternMatchesAtAnchor | app.py:25 | pattern 1 matches at an index exactly when a `/` or `v=` there is followed by 11 identifier characters, and captures those characters |
| VideoIds.LaterPatternsSubsumed | app.py:24-34 | patterns 2–4 never change the result: the loop's outcome equals pattern 1's search alone |
| VideoIds.VideoIdIsLeftmostAnchor | app.py:25-36 | `None` exactly when the cleaned URL has no `/` or `v=` followed by 11 identifier characters; otherwise the identifier behind the leftmost such anchor |
| VideoIds.VideoIdShape | app.py:25-34 | a returned identifier is well formed and is a contiguous piece of the cleaned URL right after a `/` or `v=` |
| VideoIds.NoMatchNoAnchor | app.py:25-32 | when pattern 1 finds nothing, no index of the string has a `/` or `v=` followed by 11 identifier characters |
| VideoIds.LeftmostMatchIsLeftmostAnchor | app.py:25-32 | what pattern 1 finds is the 11 characters behind the leftmost such anchor, whose index it returns |
| UrlShapes.ShortLinkGivesId | app.py:22-34 | `https://youtu.be/<id>` followed by anything yields `<id>` |
| UrlShapes.EmbedPathGivesId | app.py:22-34 | `https://www.youtube.com/embed/<id>` followed by anything yields `<id>` |
| UrlShapes.ShortsPathGivesId | app.py:22-34 | `https://www.youtube.com/shorts/<id>` followed by anything yields `<id>` |
| UrlShapes.WatchUrlLosesId | app.py:22 | `https://www.youtube.com/watch?v=<id>` yields `None` for every `<id>` |
| UrlShapes.ForeignHostAccepted | app.py:25-34 | the host is not checked: `https://example.com/<id>` followed by anything yields `<id>` |
| Patterns.DigitRunEnd | app.py:65 | the greedy `\d+` stops at the end of the run of digits: all digits before it, a non-digit or the end at it |
| Patterns.LazyTitleEnd | app.py:118 | the lazy `(.*?)` stops at the first index where ` - YouTube</title>` starts, and fails if a newline comes first |
| Patterns.MatchAt | app.py:25-28 | a pattern's group at one index: an identifier group is well formed, a digits group is non-empty digits, a title group has no newline |
| Patterns.SearchFrom | app.py:32 | the first match at a given index or later; no contract of its own, `SearchFromLeftmost` states what it means |
| Patterns.SearchFromLeftmost | app.py:32 | the search from index `i` finds nothing exactly when no index from `i` on matches, and otherwise returns the group of the smallest such index that matches |
| Patterns.Search | app.py:32 | `re.search` reduced to its group; no contract of its own, `SearchIsLeftmost` and `SearchFindsFirst` state what it means |
| Patterns.SearchIsLeftmost | app.py:32 | `re.search` finds nothing exactly when no index matches, and otherwise returns the group of the smallest index that matches |
| Patterns.SearchFindsFirst | app.py:32 | when index `j` matches and no earlier index does, the search returns `j`'s group |
| Text.DecimalValue | app.py:67 | `int()` on a string of decimal digits; no contract of its own, `DecimalRoundTrip` states that it inverts `DecimalString` |
| Text.DecimalRoundTrip | app.py:67 | `int()` reads the decimal numeral of `n` back as `n` |
| Scrape.ExtractCount | app.py:65-73 | `int()` of the first `"<key>":"(\d+)"` group; no contract of its own: `CountRoundTrip` states that a written count is read back, `NoFieldNoCount` that a page without the field gives `None`, and `CountComesFromPage` that a found count comes from such a field in the page |
| Scrape.Duration | app.py:65-67 | the `lengthSeconds` count; no contract of its own, `CountRoundTrip`, `NoFieldNoCount`, `CountComesFromPage` and `DurationNeedsLoadedPage` state what it reads |
| Scrape.ViewCount | app.py:71-73 | the `viewCount` count; no contract of its own, `CountRoundTrip`, `NoFieldNoCount`, `CountComesFromPage` and `ViewCountIgnoresPageStatus` state what it reads |
| Scrape.NoFieldNoCount | app.py:63-73 | a page in which no `"<key>":"` opener starts gives no count (`None`) |
| Scrape.CountComesFromPage | app.py:65-73 | a found count is `int(ds)` for a field `"<key>":"<ds>"` in the page, `ds` a non-empty run of digits, at the index it returns |
| Scrape.CountRoundTrip | app.py:65-73 | a count written `"<key>":"<n>"` in the page is extracted as `n`, whatever comes after it and whatever comes before it, provided no other `"<key>":"` opener starts earlier |
| Scrape.TitleRoundTrip | app.py:118-119 | `<title>t - YouTube</title>` is scraped back as `t` when `t` has no newline, ` - YouTube</title>` does not start inside it, and no other `<title>` starts before it |
| Scrape.ScrapeTitle | app.py:118-119 | without a matching title element the title is `Video <id>`; `TitleComesFromPage` states where any other title comes from |
| Scrape.TitleComesFromPage | app.py:118-119 | a title found by the pattern is the text `t` of a `<title>t - YouTube</title>` in the page, without newline, at the index it returns |
| Scrape.UntitledPage | app.py:118-119 | a page in which no `<title>` starts gets the title `Video <id>` |
| Thumbnails.QualityTable | app.py:208-214 | the `qualities` dict; no contract of its own, `QualityTableEntries` and `QualityTableInjective` state its contents |
| Thumbnails.QualityTableEntries | app.py:208-214 | the table has exactly the keys `maxres`, `high`, `medium`, `default`, `sddefault`, each mapped to its `.jpg` file under `https://i.ytimg.com/vi/<id>/` |
| Thumbnails.ThumbnailUrlInjective | app.py:208-214 | two thumbnail URLs for identifiers of equal length are equal only when the identifiers and the file names are |
| Thumbnails.QualityTableInjective | app.py:208-214 | distinct quality keys name distinct image URLs |
| Thumbnails.RequestedThumbnail | app.py:216 | the image checked is a table entry: the requested quality's, or `maxres` for an unknown quality |
| Thumbnails.ChosenThumbnail | app.py:216-222 | the image returned is a table entry: `hqdefault` after a non-200 check, the requested one otherwise |
| Thumbnails.KnownQualitySelected | app.py:216 | a known quality whose check answers 200 selects that quality's entry |
| Thumbnails.MediumQualityIsMq | app.py:211-216 | quality `medium` with a passing check gives `https://i.ytimg.com/vi/<id>/mqdefault.jpg` |
| Thumbnails.FallbackQualities | app.py:216-222 | an unknown quality gives `maxres`; a failed check gives `high` whatever was asked |
| Resolver.Resolve | app.py:40-132 | success exactly when some strategy answers 200; the data carries the requested identifier; failure says `All methods failed`; the oEmbed request is always made first |
| Resolver.StrategiesInOrder | app.py:52-132 | the iframe endpoint is asked exactly when oEmbed did not answer 200, and the HTML page exactly when neither did; the data comes from the first strategy that answered 200 |
| Resolver.AllFailures | app.py:108-132 | when all three answer non-200, all three were asked in order and the result is `All methods failed` |
| Resolver.FieldOr | app.py:79-82 | `data.get(key, '')`; no contract of its own, `OEmbedFieldsCopied` and `IframeFieldsCopied` state it |
| Resolver.WatchUrl | app.py:56 | the watch-page URL; no contract of its own, `OEmbedFieldsCopied`, `AllFailures` and `Handlers.VideoIdReply` state where it is used |
| Resolver.OEmbedUrl | app.py:44 | the oEmbed request URL; no contract of its own, `Resolve` states it is always requested first |
| Resolver.IframeUrl | app.py:91 | the iframe API URL; no contract of its own, `StrategiesInOrder` states when it is requested |
| Resolver.IframeFieldsCopied | app.py:102 | the iframe strategy copies `title` when present and defaults it to `''` |
| Resolver.OEmbedFieldsCopied | app.py:75-88 | oEmbed `title`, `author_name`, `author_url`, `thumbnail_url` are copied when present and default to `''`; `webpage_url` is the watch URL |
| Resolver.DurationNeedsLoadedPage | app.py:63-67 | a page stating `"lengthSeconds":"<n>"`, with no earlier such opener, gives the duration `n` when it answered 200 and `None` otherwise |
| Resolver.PageCountsRead | app.py:63-73 | for every page body: the duration is the page's `lengthSeconds` count when the page answered 200 and `None` otherwise; the view count is the page's `viewCount` count whatever its status |
| Resolver.ViewCountIgnoresPageStatus | app.py:69-73 | a page stating `"viewCount":"<n>"`, with no earlier such opener, gives the view count `n` whatever status the page answered |
| Resolver.FallbackThumbnailIsMaxres | app.py:96-130 | the iframe and HTML strategies report the `maxres` entry of the thumbnail table |
| Resolver.PageTitleReported | app.py:114-130 | the HTML strategy reports the text `t` of the page's first title element `<title>t - YouTube</title>`, when `t` has no newline and ` - YouTube</title>` does not start inside it |
| Resolver.UntitledPageReported | app.py:114-119 | a page without a title element makes the HTML strategy report `Video <id>` |
| Handlers.InfoEndpoint | app.py:138-176 | the status is 200 exactly when the body is a success, and the credit is always attached |
| Handlers.ThumbnailEndpoint | app.py:187-231 | the status is 200 exactly when the body is a success, and the credit is always attached |
| Handlers.VideoIdEndpoint | app.py:242-269 | the status is 200 exactly when the body is a success, the credit is attached, and no upstream request is made |
| Handlers.Missing | app.py:141 | `not video_url`: the parameter is absent or empty; no contract of its own, `MissingUrlRejected` states its effect on all three endpoints |
| Handlers.MissingUrlRejected | app.py:139-147 | an absent or empty `url` gives 400 `URL parameter is required` on all three endpoints, and nothing is fetched |
| Handlers.InvalidUrlRejected | app.py:151-158 | a URL without an identifier gives 400 on all three endpoints, and nothing is fetched |
| Handlers.InfoReportsResolver | app.py:160-176 | with an identifier, resolver success gives 200 with its data, and failure gives 400 with its reason, the URL and the identifier; the requests are the resolver's |
| Handlers.ThumbnailReply | app.py:199-231 | with an identifier: 200, the quality echoed (`maxres` when absent), the whole table, one existence check on the requested image, and a returned image from the table |
| Handlers.VideoIdReply | app.py:253-269 | 200 exactly when an identifier is found; then `clean_url` is `https://www.youtube.com/watch?v=<id>`, which the same endpoint rejects with 400 |

## Left out

- Flask routing, `request.args`, `jsonify` and `app.run`. These are web-framework I/O. The endpoints are functions of their query parameters.
- `requests.get` / `requests.head`, timeouts and `response.json()`. Their results are inputs: a status with a text body, or a status with a map of string fields.
- JSON values other than strings in upstream answers. `data.get(key, '')` is modelled on a map from strings to strings.
- The `USER_AGENTS` pool and `random.choice`. The header they pick has no effect on any result.
- Every `except` branch: the 500 replies and the `Alternative method error: …` result. Their text comes from arbitrary exceptions raised by foreign code.
- The static `home()` listing. It has no logic.
- The constant `type: 'video'` field of the resolver's data objects. It is the same in every result.
- Python's Unicode semantics of `\d` and `int()`. Only ASCII digits count as digits here, and characters are Dafny `char` values with no normalisation.
- The `.*` trailer of pattern 1 is not modelled, because it can match the empty string and so never changes whether or where the pattern matches.
