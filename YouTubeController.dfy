/**
 * The two route handlers of server/controllers/youtube.controller.ts.
 *
 * Each handler reads `url` (and, for downloads, `format` and `quality`) from
 * the request body, calls the service, and writes into the response. Any
 * exception thrown on the way is caught and turned into a 500 with a fixed
 * message. The extractor behind the service is two parameters here, one per
 * result type: `infoDl` for the metadata dump and `downloadDl` for the
 * download, both standing for the same `youtube-dl-exec` call.
 */
module YouTubeController {
  import opened Wrappers
  import opened YouTubeTypes
  import opened Http
  import opened MediaHeaders
  import YouTubeService

  const URL_REQUIRED := "URL is required"
  const INFO_FAILED := "Failed to fetch video information"
  const DOWNLOAD_FAILED := "Download failed"

  /**
   * What the download call resolves to: a readable stream, or a value with
   * no `pipe` method, on which `download.pipe(res)` throws a TypeError.
   */
  datatype Download = Stream(up: Upstream) | NotPipeable

  /** The response `getVideoInfo` leaves behind, from the response it was given. */
  function InfoOutcome(s: ResponseState, url: Option<string>, isValid: string -> bool,
                       infoDl: Extractor<RawInfo>): (r: ResponseState)
    requires s.Valid() && !s.headersSent
    ensures r.Valid() && r.finished && |r.body| == 1
    ensures r.headers == WithJsonType(s.headers)
  {
    if !Truthy(url) then Replied(s, 400, ErrorJson(URL_REQUIRED))
    else
      match YouTubeService.GetVideoInfo(isValid, infoDl, url.value)
      case Failure(_) => Replied(s, 500, ErrorJson(INFO_FAILED))
      case Success(info) => Replied(s, s.statusCode, InfoJson(info))
  }

  /** `getVideoInfo(req, res)`. */
  method GetVideoInfo(res: Response, url: Option<string>, isValid: string -> bool, infoDl: Extractor<RawInfo>)
    requires res.Valid() && !res.headersSent
    modifies res
    ensures res.State() == InfoOutcome(old(res.State()), url, isValid, infoDl)
  {
    if !Truthy(url) {
      res.Status(400);
      res.Json(ErrorJson(URL_REQUIRED));
      return;
    }
    var info := YouTubeService.GetVideoInfo(isValid, infoDl, url.value);
    if info.Failure? {
      res.Status(500);
      res.Json(ErrorJson(INFO_FAILED));
      return;
    }
    res.Json(InfoJson(info.value));
  }

  /** A missing or empty URL is answered with 400 before the service, and so the extractor, is consulted. */
  lemma InfoMissingUrl(s: ResponseState, url: Option<string>, isValid: string -> bool, infoDl: Extractor<RawInfo>,
                       otherValid: string -> bool, otherDl: Extractor<RawInfo>)
    requires s.Valid() && !s.headersSent && !Truthy(url)
    ensures InfoOutcome(s, url, isValid, infoDl).statusCode == 400
    ensures InfoOutcome(s, url, isValid, infoDl).body == [ErrorJson(URL_REQUIRED)]
    ensures InfoOutcome(s, url, isValid, infoDl) == InfoOutcome(s, url, otherValid, otherDl)
  {
  }

  /**
   * Every failure after the URL check, including a URL the service rejects,
   * is a 500 with the one generic message; the error text never reaches the client.
   */
  lemma InfoFailureIsGeneric(s: ResponseState, url: Option<string>, isValid: string -> bool, infoDl: Extractor<RawInfo>)
    requires s.Valid() && !s.headersSent && Truthy(url)
    requires !isValid(url.value) || infoDl(url.value, YouTubeService.INFO_FLAGS).Failure?
    ensures InfoOutcome(s, url, isValid, infoDl).statusCode == 500
    ensures InfoOutcome(s, url, isValid, infoDl).body == [ErrorJson(INFO_FAILED)]
  {
  }

  /** The only way to get metadata back: a present URL, accepted, and a successful dump. */
  lemma InfoSuccess(s: ResponseState, url: Option<string>, isValid: string -> bool, infoDl: Extractor<RawInfo>)
    requires s.Valid() && !s.headersSent
    ensures InfoOutcome(s, url, isValid, infoDl).body[0].InfoJson? <==>
              Truthy(url) && isValid(url.value) && infoDl(url.value, YouTubeService.INFO_FLAGS).Success?
    ensures InfoOutcome(s, url, isValid, infoDl).body[0].InfoJson? ==>
              InfoOutcome(s, url, isValid, infoDl).statusCode == s.statusCode &&
              InfoOutcome(s, url, isValid, infoDl).body[0].info ==
                YouTubeService.InfoOf(infoDl(url.value, YouTubeService.INFO_FLAGS).value)
  {
  }

  /** Where `downloadVideo` stops: one of three failures, or ready to stream. */
  datatype DownloadStage =
    | MissingUrl
    | InfoError
    | DownloadError
    | Ready(info: VideoInfo, format: VideoFormat, download: Download)

  /** The options of the download call for the raw request fields. */
  function DownloadFlagsOf(format: Option<string>, quality: Option<string>): ExtractorFlags
  {
    YouTubeService.DownloadFlags(FormatOfRaw(format), QualityOfRaw(quality))
  }

  /** The URL is present, accepted, and its metadata dump succeeds. */
  predicate InfoFetched(url: Option<string>, isValid: string -> bool, infoDl: Extractor<RawInfo>)
  {
    Truthy(url) && isValid(url.value) && infoDl(url.value, YouTubeService.INFO_FLAGS).Success?
  }

  /** The service calls of `downloadVideo`, in order: metadata first, then the download. */
  function Stage(url: Option<string>, format: Option<string>, quality: Option<string>, isValid: string -> bool,
                 infoDl: Extractor<RawInfo>, downloadDl: Extractor<Download>): (st: DownloadStage)
    ensures st == MissingUrl <==> !Truthy(url)
    ensures st == InfoError <==> Truthy(url) && YouTubeService.GetVideoInfo(isValid, infoDl, url.value).Failure?
    ensures st == InfoError <==> Truthy(url) && !InfoFetched(url, isValid, infoDl)
    ensures st == DownloadError <==>
              InfoFetched(url, isValid, infoDl) && downloadDl(url.value, DownloadFlagsOf(format, quality)).Failure?
    ensures st.Ready? <==>
              InfoFetched(url, isValid, infoDl) && downloadDl(url.value, DownloadFlagsOf(format, quality)).Success?
    ensures st.Ready? ==> Truthy(url) && isValid(url.value)
    ensures st.Ready? ==> st.format == FormatOfRaw(format)
    ensures st.Ready? ==> infoDl(url.value, YouTubeService.INFO_FLAGS).Success?
                          && st.info.title == infoDl(url.value, YouTubeService.INFO_FLAGS).value.title
    ensures st.Ready? ==>
              Success(st.download) ==
              downloadDl(url.value, YouTubeService.DownloadFlags(FormatOfRaw(format), QualityOfRaw(quality)))
  {
    if !Truthy(url) then MissingUrl
    else
      match YouTubeService.GetVideoInfo(isValid, infoDl, url.value)
      case Failure(_) => InfoError
      case Success(info) =>
        var fmt := FormatOfRaw(format);
        match YouTubeService.DownloadVideo(isValid, downloadDl, url.value, fmt, QualityOfRaw(quality))
        case Failure(_) => DownloadError
        case Success(download) => Ready(info, fmt, download)
  }

  /** The response `downloadVideo` leaves behind, from the response it was given. */
  function DownloadOutcome(s: ResponseState, url: Option<string>, format: Option<string>, quality: Option<string>,
                           isValid: string -> bool, infoDl: Extractor<RawInfo>, downloadDl: Extractor<Download>)
    : (r: ResponseState)
    requires s.Valid() && !s.headersSent
    ensures r.Valid()
    ensures r.statusCode == s.statusCode || r.statusCode == 400 || r.statusCode == 500
  {
    Respond(s, Stage(url, format, quality, isValid, infoDl, downloadDl))
  }

  /** The response for the stage the handler reached. */
  function Respond(s: ResponseState, stage: DownloadStage): (r: ResponseState)
    requires s.Valid() && !s.headersSent
    ensures r.Valid()
    ensures !stage.Ready? ==> r.finished && |r.body| == 1 && r.headers == WithJsonType(s.headers)
    ensures stage.MissingUrl? ==> r.statusCode == 400
    ensures !stage.MissingUrl? ==> r.statusCode == s.statusCode || r.statusCode == 500
  {
    match stage
    case MissingUrl => Replied(s, 400, ErrorJson(URL_REQUIRED))
    case InfoError => Replied(s, 500, ErrorJson(DOWNLOAD_FAILED))
    case DownloadError => Replied(s, 500, ErrorJson(DOWNLOAD_FAILED))
    case Ready(info, fmt, download) => Delivered(s, info.title, fmt, download)
  }

  /**
   * The response after the media headers are set and `download.pipe(res)` is
   * attempted. A Content-Disposition value Node refuses throws before anything
   * is stored, and the catch answers with the generic 500.
   */
  function Delivered(s: ResponseState, title: string, format: VideoFormat, download: Download): (r: ResponseState)
    requires s.Valid() && !s.headersSent
    ensures r.Valid()
    ensures r.statusCode == 500 || (r.statusCode == s.statusCode && download.Stream?)
    ensures !HeaderSafe(ContentDisposition(title, format)) || download.NotPipeable? ==>
              r.finished && r.statusCode == 500 && r.body == [ErrorJson(DOWNLOAD_FAILED)]
  {
    if !HeaderSafe(ContentDisposition(title, format)) then Replied(s, 500, ErrorJson(DOWNLOAD_FAILED))
    else
      var withHeaders := s.(headers := WithMediaHeaders(s.headers, title, format));
      match download
      case NotPipeable => Replied(withHeaders, 500, ErrorJson(DOWNLOAD_FAILED))
      case Stream(up) => Piped(withHeaders, up)
  }

  /**
   * `downloadVideo(req, res)`. A stream that fails is not observed: the
   * handler registers no 'error' listener, so the response stays open.
   */
  method DownloadVideo(res: Response, url: Option<string>, format: Option<string>, quality: Option<string>,
                       isValid: string -> bool, infoDl: Extractor<RawInfo>, downloadDl: Extractor<Download>)
    requires res.Valid() && !res.headersSent
    modifies res
    ensures res.State() == DownloadOutcome(old(res.State()), url, format, quality, isValid, infoDl, downloadDl)
  {
    ghost var stage := Stage(url, format, quality, isValid, infoDl, downloadDl);
    if !Truthy(url) {
      assert stage == MissingUrl;
      res.Status(400);
      res.Json(ErrorJson(URL_REQUIRED));
      return;
    }
    var fmt := FormatOfRaw(format);
    var info := YouTubeService.GetVideoInfo(isValid, infoDl, url.value);
    if info.Failure? {
      assert stage == InfoError;
      res.Status(500);
      res.Json(ErrorJson(DOWNLOAD_FAILED));
      return;
    }
    var download := YouTubeService.DownloadVideo(isValid, downloadDl, url.value, fmt, QualityOfRaw(quality));
    if download.Failure? {
      assert stage == DownloadError;
      res.Status(500);
      res.Json(ErrorJson(DOWNLOAD_FAILED));
      return;
    }
    assert stage == Ready(info.value, fmt, download.value);
    Deliver(res, info.value.title, fmt, download.value);
  }

  /** Set the two media headers, then pipe the download into the response. */
  method Deliver(res: Response, title: string, format: VideoFormat, download: Download)
    requires res.Valid() && !res.headersSent
    modifies res
    ensures res.State() == Delivered(old(res.State()), title, format, download)
  {
    var ok := res.Header(CONTENT_DISPOSITION, ContentDisposition(title, format));
    if !ok {
      res.Status(500);
      res.Json(ErrorJson(DOWNLOAD_FAILED));
      return;
    }
    // A media type is always a valid value, so this call stores it.
    MediaTypeHeaderSafe(format);
    ok := res.Header(CONTENT_TYPE, MediaType(format));
    match download
    case NotPipeable =>
      res.Status(500);
      res.Json(ErrorJson(DOWNLOAD_FAILED));
    case Stream(up) =>
      var faulted := res.Pipe(up);
  }

  lemma HeaderNamesDistinct()
    ensures CONTENT_DISPOSITION != CONTENT_TYPE
  {
    assert |CONTENT_DISPOSITION| != |CONTENT_TYPE|;
  }

  /** A missing or empty URL is answered with 400 and neither extractor is consulted. */
  lemma DownloadMissingUrl(s: ResponseState, url: Option<string>, format: Option<string>, quality: Option<string>,
                           isValid: string -> bool, infoDl: Extractor<RawInfo>, downloadDl: Extractor<Download>,
                           otherInfoDl: Extractor<RawInfo>, otherDownloadDl: Extractor<Download>)
    requires s.Valid() && !s.headersSent && !Truthy(url)
    ensures DownloadOutcome(s, url, format, quality, isValid, infoDl, downloadDl) == Replied(s, 400, ErrorJson(URL_REQUIRED))
    ensures DownloadOutcome(s, url, format, quality, isValid, infoDl, downloadDl) ==
            DownloadOutcome(s, url, format, quality, isValid, otherInfoDl, otherDownloadDl)
  {
  }

  /** The metadata is resolved first: when it fails, the download extractor is never consulted. */
  lemma DownloadMetadataFirst(s: ResponseState, url: Option<string>, format: Option<string>, quality: Option<string>,
                              isValid: string -> bool, infoDl: Extractor<RawInfo>, downloadDl: Extractor<Download>,
                              otherDownloadDl: Extractor<Download>)
    requires s.Valid() && !s.headersSent && Truthy(url)
    requires !isValid(url.value) || infoDl(url.value, YouTubeService.INFO_FLAGS).Failure?
    ensures DownloadOutcome(s, url, format, quality, isValid, infoDl, downloadDl) == Replied(s, 500, ErrorJson(DOWNLOAD_FAILED))
    ensures DownloadOutcome(s, url, format, quality, isValid, infoDl, downloadDl) ==
            DownloadOutcome(s, url, format, quality, isValid, infoDl, otherDownloadDl)
  {
  }

  /** Whatever goes wrong, the client sees one of two fixed messages, as the whole body of an ended response. */
  lemma DownloadErrorsAreGeneric(s: ResponseState, url: Option<string>, format: Option<string>, quality: Option<string>,
                                 isValid: string -> bool, infoDl: Extractor<RawInfo>, downloadDl: Extractor<Download>)
    requires s.Valid() && !s.headersSent
    ensures var r := DownloadOutcome(s, url, format, quality, isValid, infoDl, downloadDl);
      forall i :: 0 <= i < |r.body| && r.body[i].ErrorJson? ==>
        |r.body| == 1 && r.finished && r.body[i].error in {URL_REQUIRED, DOWNLOAD_FAILED} && r.statusCode in {400, 500}
  {
    RespondErrorsAreGeneric(s, Stage(url, format, quality, isValid, infoDl, downloadDl));
  }

  lemma RespondErrorsAreGeneric(s: ResponseState, stage: DownloadStage)
    requires s.Valid() && !s.headersSent
    ensures var r := Respond(s, stage);
      forall i :: 0 <= i < |r.body| && r.body[i].ErrorJson? ==>
        |r.body| == 1 && r.finished && r.body[i].error in {URL_REQUIRED, DOWNLOAD_FAILED} && r.statusCode in {400, 500}
  {
    if stage.Ready? {
      DeliveredErrorsAreGeneric(s, stage.info.title, stage.format, stage.download);
    }
  }

  /** After the media headers, the only JSON error is the 500 for a result that cannot be piped. */
  lemma DeliveredErrorsAreGeneric(s: ResponseState, title: string, format: VideoFormat, download: Download)
    requires s.Valid() && !s.headersSent
    ensures var r := Delivered(s, title, format, download);
      forall i :: 0 <= i < |r.body| && r.body[i].ErrorJson? ==>
        |r.body| == 1 && r.finished && r.body[i].error == DOWNLOAD_FAILED && r.statusCode == 500
  {
    if HeaderSafe(ContentDisposition(title, format)) && download.Stream? {
      var r := Delivered(s, title, format, download);
      assert r.body == BytesOf(download.up.chunks);
      assert forall i :: 0 <= i < |r.body| ==> r.body[i].Bytes?;
    }
  }

  /** A failure before the headers are set gives a JSON error and adds no media header. */
  lemma DownloadEarlyFailureHasNoMediaHeaders(s: ResponseState, url: Option<string>, format: Option<string>,
                                              quality: Option<string>, isValid: string -> bool,
                                              infoDl: Extractor<RawInfo>, downloadDl: Extractor<Download>)
    requires s.Valid() && !s.headersSent
    requires !Stage(url, format, quality, isValid, infoDl, downloadDl).Ready?
    ensures var r := DownloadOutcome(s, url, format, quality, isValid, infoDl, downloadDl);
      r.headers == WithJsonType(s.headers) && r.finished && r.statusCode in {400, 500} && r.body[0].ErrorJson?
  {
  }

  /** Once both calls succeed, the handler goes on to set the headers under the dump's title. */
  lemma ReadyDelivers(s: ResponseState, url: Option<string>, format: Option<string>, quality: Option<string>,
                      isValid: string -> bool, infoDl: Extractor<RawInfo>, downloadDl: Extractor<Download>)
    requires s.Valid() && !s.headersSent
    requires InfoFetched(url, isValid, infoDl) && downloadDl(url.value, DownloadFlagsOf(format, quality)).Success?
    ensures DownloadOutcome(s, url, format, quality, isValid, infoDl, downloadDl) ==
            Delivered(s, infoDl(url.value, YouTubeService.INFO_FLAGS).value.title, FormatOfRaw(format),
                      downloadDl(url.value, DownloadFlagsOf(format, quality)).value)
  {
    var st := Stage(url, format, quality, isValid, infoDl, downloadDl);
    assert st.Ready?;
  }

  /**
   * Under a valid title both media headers are set; a stream keeps the
   * media type as it is, a reply without `pipe` adds the charset to it.
   */
  lemma DeliveredHeaders(s: ResponseState, title: string, format: VideoFormat, download: Download)
    requires s.Valid() && !s.headersSent && HeaderSafe(title)
    ensures var r := Delivered(s, title, format, download);
      && CONTENT_DISPOSITION in r.headers && CONTENT_TYPE in r.headers
      && r.headers[CONTENT_DISPOSITION] == ContentDisposition(title, format)
      && (download.Stream? ==> r.headers[CONTENT_TYPE] == MediaType(format))
      && (download.NotPipeable? ==> r.headers[CONTENT_TYPE] == MediaType(format) + UTF8_CHARSET)
  {
    ContentDispositionSafe(title, format);
    HeaderNamesDistinct();
    var h := WithMediaHeaders(s.headers, title, format);
    if download.NotPipeable? {
      assert Delivered(s, title, format, download).headers == WithJsonType(h);
    }
  }

  /**
   * Once both calls succeed and the title is a valid header value, the
   * headers name the file after the metadata title exactly as the extractor
   * reported it (not sanitised), and the extension and the Content-Type
   * follow the same format; a stream keeps the media type as it is.
   */
  lemma DownloadHeaders(s: ResponseState, url: Option<string>, format: Option<string>, quality: Option<string>,
                        isValid: string -> bool, infoDl: Extractor<RawInfo>, downloadDl: Extractor<Download>)
    requires s.Valid() && !s.headersSent
    requires InfoFetched(url, isValid, infoDl) && downloadDl(url.value, DownloadFlagsOf(format, quality)).Success?
    requires HeaderSafe(infoDl(url.value, YouTubeService.INFO_FLAGS).value.title)
    ensures var r := DownloadOutcome(s, url, format, quality, isValid, infoDl, downloadDl);
      && CONTENT_DISPOSITION in r.headers && CONTENT_TYPE in r.headers
      && r.headers[CONTENT_DISPOSITION] ==
           ContentDisposition(infoDl(url.value, YouTubeService.INFO_FLAGS).value.title, FormatOfRaw(format))
      && (downloadDl(url.value, DownloadFlagsOf(format, quality)).value.Stream? ==>
            r.headers[CONTENT_TYPE] == MediaType(FormatOfRaw(format)))
  {
    var title := infoDl(url.value, YouTubeService.INFO_FLAGS).value.title;
    var download := downloadDl(url.value, DownloadFlagsOf(format, quality)).value;
    ReadyDelivers(s, url, format, quality, isValid, infoDl, downloadDl);
    var r := Delivered(s, title, FormatOfRaw(format), download);
    assert DownloadOutcome(s, url, format, quality, isValid, infoDl, downloadDl) == r;
    DeliveredHeaders(s, title, FormatOfRaw(format), download);
  }

  /**
   * A title with a character Node refuses in a header value (anything above
   * U+00FF, say) fails after both calls have run: the generic 500, no media
   * header, nothing piped.
   */
  lemma DownloadUnsafeTitleFails(s: ResponseState, url: Option<string>, format: Option<string>,
                                 quality: Option<string>, isValid: string -> bool,
                                 infoDl: Extractor<RawInfo>, downloadDl: Extractor<Download>)
    requires s.Valid() && !s.headersSent
    requires InfoFetched(url, isValid, infoDl) && downloadDl(url.value, DownloadFlagsOf(format, quality)).Success?
    requires !HeaderSafe(infoDl(url.value, YouTubeService.INFO_FLAGS).value.title)
    ensures DownloadOutcome(s, url, format, quality, isValid, infoDl, downloadDl) == Replied(s, 500, ErrorJson(DOWNLOAD_FAILED))
  {
    ReadyDelivers(s, url, format, quality, isValid, infoDl, downloadDl);
    ContentDispositionSafe(infoDl(url.value, YouTubeService.INFO_FLAGS).value.title, FormatOfRaw(format));
  }

  /** A title with a character outside Latin-1 cannot go into the header. */
  lemma NonLatinTitleIsUnsafe()
    ensures !HeaderSafe("Lo-fi \U{2615}")
  {
    assert !IsHeaderChar("Lo-fi \U{2615}"[6]);
  }

  /**
   * A download without `pipe` is answered with the generic 500, but the
   * media headers set just before stay: the JSON error goes out as an
   * attachment under the media type, to which `res.send` adds its UTF-8
   * charset, because `res.json` keeps a Content-Type that is already set.
   */
  lemma NotPipeableKeepsMediaHeaders(s: ResponseState, url: Option<string>, format: Option<string>, quality: Option<string>,
                                     isValid: string -> bool, infoDl: Extractor<RawInfo>, downloadDl: Extractor<Download>)
    requires s.Valid() && !s.headersSent
    requires InfoFetched(url, isValid, infoDl) && downloadDl(url.value, DownloadFlagsOf(format, quality)) == Success(NotPipeable)
    requires HeaderSafe(infoDl(url.value, YouTubeService.INFO_FLAGS).value.title)
    ensures var r := DownloadOutcome(s, url, format, quality, isValid, infoDl, downloadDl);
      && r.statusCode == 500 && r.body == [ErrorJson(DOWNLOAD_FAILED)]
      && CONTENT_DISPOSITION in r.headers && CONTENT_TYPE in r.headers
      && r.headers[CONTENT_TYPE] == MediaType(FormatOfRaw(format)) + UTF8_CHARSET
      && r.headers[CONTENT_DISPOSITION] ==
           ContentDisposition(infoDl(url.value, YouTubeService.INFO_FLAGS).value.title, FormatOfRaw(format))
  {
    var title := infoDl(url.value, YouTubeService.INFO_FLAGS).value.title;
    ReadyDelivers(s, url, format, quality, isValid, infoDl, downloadDl);
    var r := Delivered(s, title, FormatOfRaw(format), NotPipeable);
    assert DownloadOutcome(s, url, format, quality, isValid, infoDl, downloadDl) == r;
    DeliveredHeaders(s, title, FormatOfRaw(format), NotPipeable);
    ContentDispositionSafe(title, FormatOfRaw(format));
  }

  /**
   * A stream under a valid title is copied chunk for chunk under the
   * original status; the response ends when the stream ends and stays open
   * when it fails.
   */
  lemma DownloadStreams(s: ResponseState, url: Option<string>, format: Option<string>, quality: Option<string>,
                        isValid: string -> bool, infoDl: Extractor<RawInfo>, downloadDl: Extractor<Download>, up: Upstream)
    requires s.Valid() && !s.headersSent
    requires InfoFetched(url, isValid, infoDl) && downloadDl(url.value, DownloadFlagsOf(format, quality)) == Success(Stream(up))
    requires HeaderSafe(infoDl(url.value, YouTubeService.INFO_FLAGS).value.title)
    ensures var r := DownloadOutcome(s, url, format, quality, isValid, infoDl, downloadDl);
      && r.statusCode == s.statusCode && r.body == BytesOf(up.chunks)
      && (r.finished <==> !up.fails)
  {
    ReadyDelivers(s, url, format, quality, isValid, infoDl, downloadDl);
    ContentDispositionSafe(infoDl(url.value, YouTubeService.INFO_FLAGS).value.title, FormatOfRaw(format));
  }
}
