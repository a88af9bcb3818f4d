/**
 * The three endpoints of app.py as functions from their query parameters (and
 * the upstream answers) to the status code, the JSON fields they send back and
 * the outbound requests they make.
 */
module Handlers {
  import opened Wrappers
  import opened VideoIds
  import opened Thumbnails
  import opened Resolver
  import UrlShapes

  /** The attribution every response carries. */
  const Credit := "Made with \U{2764}\U{FE0F} by @DIWANI_xD"

  const UrlRequired := "URL parameter is required"
  const InfoExample := "/api/youtube/info?url=https://www.youtube.com/watch?v=dQw4w9WgXcQ"
  const InfoInvalid := "Invalid YouTube URL. Please provide a valid YouTube video URL."
  const ThumbnailInvalid := "Invalid YouTube URL"
  const NoVideoId := "Could not extract video ID from URL"

  /** The JSON object of a response, apart from `success` (see `Succeeded`) and `credit`. */
  datatype Body =
    | Failure(error: string, url: Option<string>, failedId: Option<string>, example: Option<string>)
    | Info(data: VideoData)
    | Thumbnail(videoId: string, thumbnailUrl: string, quality: string, allQualities: map<string, string>)
    | VideoIdFound(videoId: string, originalUrl: string, cleanUrl: string)
  {
    /** The `success` field. */
    predicate Succeeded() {
      !Failure?
    }
  }

  datatype Reply = Reply(status: int, body: Body, credit: string)

  /** A reply together with the outbound requests made while producing it. */
  datatype Exchange = Exchange(reply: Reply, requests: seq<Request>)

  /** `if not video_url`: an absent and an empty parameter are both missing. */
  predicate Missing(url: Option<string>) {
    url.None? || url.value == ""
  }

  function Ok(body: Body, requests: seq<Request>): Exchange {
    Exchange(Reply(200, body, Credit), requests)
  }

  function BadRequest(body: Body, requests: seq<Request>): Exchange {
    Exchange(Reply(400, body, Credit), requests)
  }

  /** `GET /api/youtube/info?url=…` */
  function InfoEndpoint(url: Option<string>, up: Upstream): (x: Exchange)
    ensures x.reply.status == (if x.reply.body.Succeeded() then 200 else 400)
    ensures x.reply.credit == Credit
  {
    if Missing(url) then
      BadRequest(Failure(UrlRequired, None, None, Some(InfoExample)), [])
    else match VideoId(url.value)
      case None => BadRequest(Failure(InfoInvalid, url, None, None), [])
      case Some(id) =>
        var r := Resolve(id, up);
        match r.result
        case Fetched(data) => Ok(Info(data), r.requests)
        case FetchFailed(error) => BadRequest(Failure(error, url, Some(id), None), r.requests)
  }

  /** `GET /api/youtube/thumbnail?url=…&quality=…`, with the status of the existence check. */
  function ThumbnailEndpoint(url: Option<string>, quality: Option<string>, checkStatus: int): (x: Exchange)
    ensures x.reply.status == (if x.reply.body.Succeeded() then 200 else 400)
    ensures x.reply.credit == Credit
  {
    var quality := quality.GetOr("maxres");
    if Missing(url) then
      BadRequest(Failure(UrlRequired, None, None, None), [])
    else match VideoId(url.value)
      case None => BadRequest(Failure(ThumbnailInvalid, None, None, None), [])
      case Some(id) =>
        var checked := RequestedThumbnail(id, quality);
        Ok(Thumbnail(id, ChosenThumbnail(id, quality, checkStatus), quality, QualityTable(id)), [Head(checked)])
  }

  /** `GET /api/youtube/video_id?url=…` */
  function VideoIdEndpoint(url: Option<string>): (x: Exchange)
    ensures x.reply.status == (if x.reply.body.Succeeded() then 200 else 400)
    ensures x.reply.credit == Credit
    ensures x.requests == []
  {
    if Missing(url) then
      BadRequest(Failure(UrlRequired, None, None, None), [])
    else match VideoId(url.value)
      case None => BadRequest(Failure(NoVideoId, url, None, None), [])
      case Some(id) => Ok(VideoIdFound(id, url.value, WatchUrl(id)), [])
  }

  /** A missing or empty `url` is answered 400 before anything else happens, on every endpoint. */
  lemma MissingUrlRejected(url: Option<string>, up: Upstream, quality: Option<string>, checkStatus: int)
    requires Missing(url)
    ensures forall x :: x in [InfoEndpoint(url, up), ThumbnailEndpoint(url, quality, checkStatus), VideoIdEndpoint(url)] ==>
      x.reply.status == 400 && x.reply.body.Failure? && x.reply.body.error == UrlRequired && x.requests == []
  {
  }

  /** A URL without an identifier is answered 400 on every endpoint, and no upstream is asked. */
  lemma InvalidUrlRejected(url: string, up: Upstream, quality: Option<string>, checkStatus: int)
    requires url != "" && VideoId(url).None?
    ensures forall x :: x in [InfoEndpoint(Some(url), up), ThumbnailEndpoint(Some(url), quality, checkStatus),
                              VideoIdEndpoint(Some(url))] ==>
      x.reply.status == 400 && x.reply.body.Failure? && x.requests == []
  {
  }

  /**
   * With an identifier, the info endpoint reports the resolver's outcome: its data
   * with 200, or its reason with 400 together with the URL and the identifier.
   */
  lemma InfoReportsResolver(url: string, up: Upstream)
    requires url != "" && VideoId(url).Some?
    ensures var id := VideoId(url).value;
      var r := Resolve(id, up);
      var x := InfoEndpoint(Some(url), up);
      && x.requests == r.requests
      && (r.result.Fetched? ==> x.reply == Reply(200, Info(r.result.data), Credit))
      && (r.result.FetchFailed? ==>
            x.reply == Reply(400, Failure(r.result.error, Some(url), Some(id), None), Credit))
  {
  }

  /**
   * With an identifier, the thumbnail endpoint always succeeds: it echoes the
   * quality asked for (`maxres` when none was), sends the whole table, checks
   * the requested image once, and returns the chosen one.
   */
  lemma ThumbnailReply(url: string, quality: Option<string>, checkStatus: int)
    requires url != "" && VideoId(url).Some?
    ensures var id := VideoId(url).value;
      var q := if quality.Some? then quality.value else "maxres";
      var x := ThumbnailEndpoint(Some(url), quality, checkStatus);
      && x.reply.status == 200
      && x.reply.body == Thumbnail(id, ChosenThumbnail(id, q, checkStatus), q, QualityTable(id))
      && x.requests == [Head(RequestedThumbnail(id, q))]
      && x.reply.body.thumbnailUrl in x.reply.body.allQualities.Values
  {
  }

  /**
   * The identifier endpoint answers 200 exactly when an identifier is found, and
   * then its `clean_url` is the watch URL of that identifier -- a URL the same
   * endpoint, as written, rejects, since its identifier sits behind the `?`.
   */
  lemma VideoIdReply(url: string)
    requires url != ""
    ensures var x := VideoIdEndpoint(Some(url));
      && (x.reply.status == 200 <==> VideoId(url).Some?)
      && (VideoId(url).Some? ==>
            x.reply.body == VideoIdFound(VideoId(url).value, url, "https://www.youtube.com/watch?v=" + VideoId(url).value))
      && (VideoId(url).Some? ==> VideoIdEndpoint(Some(x.reply.body.cleanUrl)).reply.status == 400)
  {
    if VideoId(url).Some? {
      UrlShapes.WatchUrlLosesId(VideoId(url).value);
      assert "https://www.youtube.com/watch?v=" + VideoId(url).value
          == UrlShapes.WatchPage + "?v=" + VideoId(url).value;
    }
  }
}
