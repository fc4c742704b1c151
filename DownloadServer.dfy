/**
 * The stand-alone download server of server/index.js: its own API key check
 * and the `POST /api/download` route, which streams from `ytdl-core`.
 *
 * The `ytdl-core` calls are parameters: `validateURL` the URL predicate,
 * `getInfo` the metadata lookup (giving the video title or an error), and
 * `open` the stream constructor, which may throw before any data flows.
 */
module DownloadServer {
  import opened Wrappers
  import opened YouTubeTypes
  import opened Text
  import opened Seqs
  import opened Http
  import opened MediaHeaders
  import Auth

  const INVALID_API_KEY := "Invalid API key"
  const URL_REQUIRED := "URL is required"
  const INVALID_URL := "Invalid YouTube URL"
  const DOWNLOAD_FAILED := "Download failed"

  /**
   * The middleware: the key from the environment may be unset, in which case
   * no request gets through.
   */
  method ValidateApiKey(res: Response, key: Option<string>, configured: Option<string>) returns (next: bool)
    requires res.Valid() && !res.headersSent
    modifies res
    ensures next == Auth.KeyAccepted(key, configured)
    ensures next <==> !res.finished
    ensures next ==> res.State() == old(res.State())
    ensures !next ==> res.State() == Replied(old(res.State()), 401, ErrorJson(INVALID_API_KEY))
  {
    if !Truthy(key) || key != configured {
      res.Status(401);
      res.Json(ErrorJson(INVALID_API_KEY));
      return false;
    }
    return true;
  }

  /** The characters a title keeps: `\w` and `\s`. */
  predicate IsTitleChar(c: char)
  {
    IsWordChar(c) || IsJsSpace(c)
  }

  /** `title.replace(/[^\w\s]/gi, '')`. */
  function SanitizeTitle(title: string): (clean: string)
    ensures |clean| <= |title|
    ensures forall i :: 0 <= i < |clean| ==> IsWordChar(clean[i]) || IsJsSpace(clean[i])
  {
    Filter(title, IsTitleChar)
  }

  /**
   * Sanitising keeps exactly the word and space characters, each as often as
   * it occurs and in the original order, and is idempotent.
   */
  lemma SanitizeTitleFilters(title: string)
    ensures IsSubsequence(SanitizeTitle(title), title)
    ensures SanitizeTitle(SanitizeTitle(title)) == SanitizeTitle(title)
    ensures forall c :: multiset(SanitizeTitle(title))[c] == if IsTitleChar(c) then multiset(title)[c] else 0
  {
    FilterIsSubsequence(title, IsTitleChar);
    FilterIdempotent(title, IsTitleChar);
    FilterCounts(title, IsTitleChar);
  }

  /** Punctuation goes, letters, digits, underscores and spaces stay. */
  lemma SanitizeTitleExample()
    ensures SanitizeTitle("Foo: Bar?!") == "Foo Bar"
  {
    assert "Foo: Bar?!"[1..] == "oo: Bar?!";
  }

  /** The `ytdl` options: what to fetch and at which quality. */
  datatype StreamOptions = StreamOptions(filter: string, quality: string)

  function StreamOptionsFor(format: VideoFormat): (opts: StreamOptions)
    ensures format == AUDIO ==> opts == StreamOptions("audioonly", "highestaudio")
    ensures format == VIDEO ==> opts == StreamOptions("videoandaudio", "highest")
  {
    if format == AUDIO then StreamOptions("audioonly", "highestaudio") else StreamOptions("videoandaudio", "highest")
  }

  /** The stream asked for is the kind of file the headers announce. */
  lemma StreamOptionsAgreeWithHeaders(format: VideoFormat)
    ensures StreamOptionsFor(format).filter == "audioonly" <==> MediaType(format) == "audio/mpeg"
    ensures StreamOptionsFor(format).filter == "audioonly" <==> Extension(format) == "mp3"
  {
  }

  /**
   * Where the route stops: a 400, a failure before streaming (a title the
   * Content-Disposition header refuses, or a stream that cannot be opened),
   * or a stream.
   */
  datatype RouteStage =
    | NoUrl
    | BadUrl
    | InfoFailed
    | HeaderFailed(title: string)
    | OpenFailed(title: string)
    | Streaming(title: string, up: Upstream)

  /** The URL is present, accepted by the validator, and its metadata lookup succeeds. */
  predicate TitleKnown(url: Option<string>, validateURL: string -> bool, getInfo: string -> Result<string, string>)
  {
    Truthy(url) && validateURL(url.value) && getInfo(url.value).Success?
  }

  /** The `ytdl` calls of the route and the header it sets in between, in order. */
  function Route(url: Option<string>, format: Option<string>, validateURL: string -> bool,
                 getInfo: string -> Result<string, string>,
                 open: (string, StreamOptions) -> Result<Upstream, string>): (st: RouteStage)
    ensures st == NoUrl <==> !Truthy(url)
    ensures st == BadUrl <==> Truthy(url) && !validateURL(url.value)
    ensures st == InfoFailed <==> Truthy(url) && validateURL(url.value) && getInfo(url.value).Failure?
    ensures st.HeaderFailed? <==>
              TitleKnown(url, validateURL, getInfo) && !HeaderSafe(SanitizeTitle(getInfo(url.value).value))
    ensures st.OpenFailed? <==>
              TitleKnown(url, validateURL, getInfo) && HeaderSafe(SanitizeTitle(getInfo(url.value).value))
              && open(url.value, StreamOptionsFor(FormatOfRaw(format))).Failure?
    ensures st.Streaming? <==>
              TitleKnown(url, validateURL, getInfo) && HeaderSafe(SanitizeTitle(getInfo(url.value).value))
              && open(url.value, StreamOptionsFor(FormatOfRaw(format))).Success?
    ensures (st.HeaderFailed? || st.OpenFailed? || st.Streaming?) ==>
              TitleKnown(url, validateURL, getInfo) && st.title == SanitizeTitle(getInfo(url.value).value)
    ensures st.Streaming? ==> open(url.value, StreamOptionsFor(FormatOfRaw(format))) == Success(st.up)
  {
    if !Truthy(url) then NoUrl
    else if !validateURL(url.value) then BadUrl
    else
      match getInfo(url.value)
      case Failure(_) => InfoFailed
      case Success(raw) =>
        var title := SanitizeTitle(raw);
        ContentDispositionSafe(title, FormatOfRaw(format));
        if !HeaderSafe(ContentDisposition(title, FormatOfRaw(format))) then HeaderFailed(title)
        else
          match open(url.value, StreamOptionsFor(FormatOfRaw(format)))
          case Failure(_) => OpenFailed(title)
          case Success(up) => Streaming(title, up)
  }

  /**
   * The response the route leaves behind. A stream error is answered with
   * 500 only while the headers are unsent, that is, before the first chunk.
   */
  function RouteOutcome(s: ResponseState, url: Option<string>, format: Option<string>, validateURL: string -> bool,
                        getInfo: string -> Result<string, string>,
                        open: (string, StreamOptions) -> Result<Upstream, string>): (r: ResponseState)
    requires s.Valid() && !s.headersSent
    ensures r.Valid()
    ensures r.statusCode == s.statusCode || r.statusCode == 400 || r.statusCode == 500
  {
    match Route(url, format, validateURL, getInfo, open)
    case NoUrl => Replied(s, 400, ErrorJson(URL_REQUIRED))
    case BadUrl => Replied(s, 400, ErrorJson(INVALID_URL))
    case InfoFailed => Replied(s, 500, ErrorJson(DOWNLOAD_FAILED))
    case HeaderFailed(_) => Replied(s, 500, ErrorJson(DOWNLOAD_FAILED))
    case OpenFailed(title) =>
      Replied(s.(headers := WithMediaHeaders(s.headers, title, FormatOfRaw(format))), 500, ErrorJson(DOWNLOAD_FAILED))
    case Streaming(title, up) =>
      StreamedOutcome(s.(headers := WithMediaHeaders(s.headers, title, FormatOfRaw(format))), up)
  }

  /** Piping, then the guarded 'error' listener. */
  function StreamedOutcome(s: ResponseState, up: Upstream): (r: ResponseState)
    requires s.Valid() && !s.headersSent
    ensures r.Valid()
    ensures r.statusCode == s.statusCode || r.statusCode == 500
    ensures r.finished <==> !up.fails || |up.chunks| == 0
    ensures |r.body| >= |BytesOf(up.chunks)| && r.body[..|BytesOf(up.chunks)|] == BytesOf(up.chunks)
  {
    var piped := Piped(s, up);
    if up.fails && !piped.headersSent then Replied(piped, 500, ErrorJson(DOWNLOAD_FAILED)) else piped
  }

  /** The handler of `POST /api/download`, run after the key check. */
  method DownloadRoute(res: Response, url: Option<string>, format: Option<string>, validateURL: string -> bool,
                       getInfo: string -> Result<string, string>,
                       open: (string, StreamOptions) -> Result<Upstream, string>)
    requires res.Valid() && !res.headersSent
    modifies res
    ensures res.State() == RouteOutcome(old(res.State()), url, format, validateURL, getInfo, open)
  {
    if !Truthy(url) {
      res.Status(400);
      res.Json(ErrorJson(URL_REQUIRED));
      return;
    }
    if !validateURL(url.value) {
      res.Status(400);
      res.Json(ErrorJson(INVALID_URL));
      return;
    }
    var info := getInfo(url.value);
    if info.Failure? {
      if !res.headersSent {
        res.Status(500);
        res.Json(ErrorJson(DOWNLOAD_FAILED));
      }
      return;
    }
    var title := SanitizeTitle(info.value);
    var fmt := FormatOfRaw(format);
    var ok := res.Header(CONTENT_DISPOSITION, ContentDisposition(title, fmt));
    if !ok {
      if !res.headersSent {
        res.Status(500);
        res.Json(ErrorJson(DOWNLOAD_FAILED));
      }
      return;
    }
    // A media type is always a valid value, so this call stores it.
    MediaTypeHeaderSafe(fmt);
    ok := res.Header(CONTENT_TYPE, MediaType(fmt));
    var stream := open(url.value, StreamOptionsFor(fmt));
    if stream.Failure? {
      if !res.headersSent {
        res.Status(500);
        res.Json(ErrorJson(DOWNLOAD_FAILED));
      }
      return;
    }
    PipeGuarded(res, stream.value);
  }

  /** `stream.on('error', …)` followed by `stream.pipe(res)`. */
  method PipeGuarded(res: Response, up: Upstream)
    requires res.Valid() && !res.headersSent
    modifies res
    ensures res.State() == StreamedOutcome(old(res.State()), up)
  {
    var faulted := res.Pipe(up);
    if faulted && !res.headersSent {
      res.Status(500);
      res.Json(ErrorJson(DOWNLOAD_FAILED));
    }
  }

  /**
   * `POST /api/download`: the key check, then the route. `next` is whether
   * the route ran.
   */
  method PostDownload(res: Response, key: Option<string>, configured: Option<string>,
                      url: Option<string>, format: Option<string>, validateURL: string -> bool,
                      getInfo: string -> Result<string, string>,
                      open: (string, StreamOptions) -> Result<Upstream, string>) returns (next: bool)
    requires res.Valid() && !res.headersSent
    modifies res
    ensures next == Auth.KeyAccepted(key, configured)
    ensures !next ==> res.State() == Replied(old(res.State()), 401, ErrorJson(INVALID_API_KEY))
    ensures next ==> res.State() == RouteOutcome(old(res.State()), url, format, validateURL, getInfo, open)
  {
    next := ValidateApiKey(res, key, configured);
    if next {
      DownloadRoute(res, url, format, validateURL, getInfo, open);
    }
  }

  /** The two 400 answers come before any `ytdl` lookup, and the URL check before the validator. */
  lemma RouteRejectsEarly(s: ResponseState, url: Option<string>, format: Option<string>, validateURL: string -> bool,
                          getInfo: string -> Result<string, string>,
                          open: (string, StreamOptions) -> Result<Upstream, string>,
                          otherValidate: string -> bool, otherGetInfo: string -> Result<string, string>,
                          otherOpen: (string, StreamOptions) -> Result<Upstream, string>)
    requires s.Valid() && !s.headersSent
    ensures !Truthy(url) ==>
              RouteOutcome(s, url, format, validateURL, getInfo, open) == Replied(s, 400, ErrorJson(URL_REQUIRED))
              && RouteOutcome(s, url, format, validateURL, getInfo, open) ==
                 RouteOutcome(s, url, format, otherValidate, otherGetInfo, otherOpen)
    ensures Truthy(url) && !validateURL(url.value) ==>
              RouteOutcome(s, url, format, validateURL, getInfo, open) == Replied(s, 400, ErrorJson(INVALID_URL))
              && RouteOutcome(s, url, format, validateURL, getInfo, open) ==
                 RouteOutcome(s, url, format, validateURL, otherGetInfo, otherOpen)
  {
  }

  /**
   * The `headersSent` guard: an error body is only ever the whole body of a
   * response; once a chunk has gone out, nothing more is written, and a
   * failing stream leaves the response open.
   */
  lemma StreamErrorGuarded(s: ResponseState, up: Upstream)
    requires s.Valid() && !s.headersSent
    ensures var r := StreamedOutcome(s, up);
      && (|up.chunks| > 0 ==> r == Piped(s, up) && r.body == BytesOf(up.chunks) && (r.finished <==> !up.fails))
      && (|up.chunks| == 0 && up.fails ==> r == Replied(s, 500, ErrorJson(DOWNLOAD_FAILED)))
  {
  }

  /** No error object is ever appended after data: a JSON error is alone in its body. */
  lemma RouteErrorIsWholeBody(s: ResponseState, url: Option<string>, format: Option<string>, validateURL: string -> bool,
                              getInfo: string -> Result<string, string>,
                              open: (string, StreamOptions) -> Result<Upstream, string>)
    requires s.Valid() && !s.headersSent
    ensures var r := RouteOutcome(s, url, format, validateURL, getInfo, open);
      forall i :: 0 <= i < |r.body| && r.body[i].ErrorJson? ==>
        |r.body| == 1 && r.finished && r.body[i].error in {URL_REQUIRED, INVALID_URL, DOWNLOAD_FAILED}
  {
    var st := Route(url, format, validateURL, getInfo, open);
    if st.Streaming? {
      StreamedErrorIsWholeBody(s.(headers := WithMediaHeaders(s.headers, st.title, FormatOfRaw(format))), st.up);
    }
  }

  /** After piping, an error object is the whole body: a stream with data never gets one. */
  lemma StreamedErrorIsWholeBody(s: ResponseState, up: Upstream)
    requires s.Valid() && !s.headersSent
    ensures var r := StreamedOutcome(s, up);
      forall i :: 0 <= i < |r.body| && r.body[i].ErrorJson? ==>
        |r.body| == 1 && r.finished && r.body[i].error == DOWNLOAD_FAILED
  {
    var r := StreamedOutcome(s, up);
    if |up.chunks| > 0 || !up.fails {
      assert r.body == BytesOf(up.chunks);
      assert forall i :: 0 <= i < |r.body| ==> r.body[i].Bytes?;
    }
  }

  /**
   * Once the title is known and valid in a header, the file is named after
   * the SANITISED title; the Content-Type is the media type, with the UTF-8
   * charset `res.send` adds when a 500 goes out at this point (`res.json`
   * keeps a Content-Type already set).
   */
  lemma RouteHeaders(s: ResponseState, url: Option<string>, format: Option<string>, validateURL: string -> bool,
                     getInfo: string -> Result<string, string>,
                     open: (string, StreamOptions) -> Result<Upstream, string>)
    requires s.Valid() && !s.headersSent
    requires TitleKnown(url, validateURL, getInfo) && HeaderSafe(SanitizeTitle(getInfo(url.value).value))
    ensures var r := RouteOutcome(s, url, format, validateURL, getInfo, open);
      && CONTENT_DISPOSITION in r.headers && CONTENT_TYPE in r.headers
      && r.headers[CONTENT_DISPOSITION] == ContentDisposition(SanitizeTitle(getInfo(url.value).value), FormatOfRaw(format))
      && (r.body == [ErrorJson(DOWNLOAD_FAILED)] ==> r.headers[CONTENT_TYPE] == MediaType(FormatOfRaw(format)) + UTF8_CHARSET)
      && (r.body != [ErrorJson(DOWNLOAD_FAILED)] ==> r.headers[CONTENT_TYPE] == MediaType(FormatOfRaw(format)))
  {
    var st := Route(url, format, validateURL, getInfo, open);
    var h := WithMediaHeaders(s.headers, st.title, FormatOfRaw(format));
    var r := RouteOutcome(s, url, format, validateURL, getInfo, open);
    assert |CONTENT_DISPOSITION| != |CONTENT_TYPE|;
    var withHeaders := s.(headers := h);
    if st.OpenFailed? {
      assert r == Replied(withHeaders, 500, ErrorJson(DOWNLOAD_FAILED));
    } else if st.up.fails && |st.up.chunks| == 0 {
      assert r == Replied(Piped(withHeaders, st.up), 500, ErrorJson(DOWNLOAD_FAILED));
    } else {
      assert r == Piped(withHeaders, st.up);
      assert r.body == BytesOf(st.up.chunks);
      assert r.body != [ErrorJson(DOWNLOAD_FAILED)] by {
        if |r.body| == 1 {
          assert r.body[0].Bytes?;
        }
      }
    }
  }

  /**
   * A sanitised title the header refuses (one keeping a line break or a
   * space above U+00FF) fails before the stream is opened: the generic 500,
   * no media header, and `ytdl` is never asked for the stream.
   */
  lemma RouteUnsafeTitleFails(s: ResponseState, url: Option<string>, format: Option<string>, validateURL: string -> bool,
                              getInfo: string -> Result<string, string>,
                              open: (string, StreamOptions) -> Result<Upstream, string>,
                              otherOpen: (string, StreamOptions) -> Result<Upstream, string>)
    requires s.Valid() && !s.headersSent
    requires TitleKnown(url, validateURL, getInfo) && !HeaderSafe(SanitizeTitle(getInfo(url.value).value))
    ensures RouteOutcome(s, url, format, validateURL, getInfo, open) == Replied(s, 500, ErrorJson(DOWNLOAD_FAILED))
    ensures RouteOutcome(s, url, format, validateURL, getInfo, open) ==
            RouteOutcome(s, url, format, validateURL, getInfo, otherOpen)
  {
    assert Route(url, format, validateURL, getInfo, open).HeaderFailed?;
    assert Route(url, format, validateURL, getInfo, otherOpen).HeaderFailed?;
  }

  /** Sanitising keeps an ideographic space, which no header value may carry. */
  lemma SanitizedTitleCanBeUnsafe()
    ensures SanitizeTitle("A\U{3000}B") == "A\U{3000}B"
    ensures !HeaderSafe("A\U{3000}B")
  {
    var t := "A\U{3000}B";
    assert IsTitleChar(t[0]) && IsTitleChar(t[1]) && IsTitleChar(t[2]);
    FilterOfKept(t, IsTitleChar);
    assert !IsHeaderChar(t[1]);
  }

  /**
   * The two download handlers name the same video differently: the
   * controller puts the raw title into the header, this route the sanitised one.
   */
  lemma FilenamesDifferFromController(format: VideoFormat)
    ensures ContentDisposition("Foo: Bar?!", format) != ContentDisposition(SanitizeTitle("Foo: Bar?!"), format)
  {
    SanitizeTitleExample();
    assert "Foo: Bar?!" != "Foo Bar" by {
      assert |"Foo: Bar?!"| != |"Foo Bar"|;
    }
    if ContentDisposition("Foo: Bar?!", format) == ContentDisposition("Foo Bar", format) {
      ContentDispositionInjective("Foo: Bar?!", "Foo Bar", format);
    }
  }
}
