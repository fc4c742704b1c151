/**
 * The two response headers both download handlers set before streaming
 * (server/controllers/youtube.controller.ts and server/index.js): a
 * Content-Disposition that names the file, and the media Content-Type.
 * Both are chosen by the same test, `format === 'audio'`.
 */
module MediaHeaders {
  import opened YouTubeTypes
  import Http

  const CONTENT_DISPOSITION := "Content-Disposition"
  const DISPOSITION_PREFIX := "attachment; filename=\""

  /** The file extension: `mp3` for audio, `mp4` for everything else. */
  function Extension(format: VideoFormat): (ext: string)
    ensures |ext| == 3
    ensures ext == "mp3" <==> format == AUDIO
    ensures format == VIDEO ==> ext == "mp4"
  {
    if format == AUDIO then "mp3" else "mp4"
  }

  /** The media type: `audio/mpeg` for audio, `video/mp4` for everything else. */
  function MediaType(format: VideoFormat): (mime: string)
    ensures mime == "audio/mpeg" <==> format == AUDIO
    ensures format == VIDEO ==> mime == "video/mp4"
  {
    if format == AUDIO then "audio/mpeg" else "video/mp4"
  }

  /** The extension and the media type always describe the same kind of file. */
  lemma ExtensionAgreesWithMediaType(format: VideoFormat)
    ensures Extension(format) == "mp3" <==> MediaType(format) == "audio/mpeg"
    ensures Extension(format) == "mp4" ==> MediaType(format) == "video/mp4"
  {
  }

  /** `attachment; filename="<title>.<ext>"`, with the title inserted as given. */
  function ContentDisposition(title: string, format: VideoFormat): (value: string)
    ensures |value| == |DISPOSITION_PREFIX| + |title| + 5
  {
    DISPOSITION_PREFIX + title + "." + Extension(format) + "\""
  }

  /**
   * The header can be read back: after the fixed prefix comes the title
   * exactly as passed in, then a dot, the extension and the closing quote.
   */
  lemma ContentDispositionNamesFile(title: string, format: VideoFormat)
    ensures var v := ContentDisposition(title, format);
      && v[..|DISPOSITION_PREFIX|] == DISPOSITION_PREFIX
      && v[|DISPOSITION_PREFIX|..|DISPOSITION_PREFIX| + |title|] == title
      && v[|DISPOSITION_PREFIX| + |title|..] == "." + Extension(format) + "\""
  {
    var v := ContentDisposition(title, format);
    assert v == DISPOSITION_PREFIX + (title + ("." + Extension(format) + "\""));
  }

  /** Different titles give different headers: the title is never altered. */
  lemma ContentDispositionInjective(t1: string, t2: string, format: VideoFormat)
    requires ContentDisposition(t1, format) == ContentDisposition(t2, format)
    ensures t1 == t2
  {
    ContentDispositionNamesFile(t1, format);
    ContentDispositionNamesFile(t2, format);
  }

  /** Both media types are valid header values, so setting the Content-Type never throws. */
  lemma MediaTypeHeaderSafe(format: VideoFormat)
    ensures Http.HeaderSafe(MediaType(format))
  {
  }

  /**
   * The Content-Disposition value can be set exactly when the title holds
   * only characters a header value may carry: the rest of it is plain ASCII.
   */
  lemma ContentDispositionSafe(title: string, format: VideoFormat)
    ensures Http.HeaderSafe(ContentDisposition(title, format)) <==> Http.HeaderSafe(title)
  {
    var tail := "." + Extension(format) + "\"";
    assert Http.HeaderSafe(DISPOSITION_PREFIX) && Http.HeaderSafe(tail);
    assert ContentDisposition(title, format) == DISPOSITION_PREFIX + (title + tail);
    Http.HeaderSafeConcat(DISPOSITION_PREFIX, title + tail);
    Http.HeaderSafeConcat(title, tail);
  }

  /** The header map after the two `res.header` calls, Content-Disposition first. */
  function WithMediaHeaders(headers: map<string, string>, title: string, format: VideoFormat)
    : (r: map<string, string>)
    ensures r.Keys == headers.Keys + {CONTENT_DISPOSITION, Http.CONTENT_TYPE}
    ensures r[CONTENT_DISPOSITION] == ContentDisposition(title, format)
    ensures r[Http.CONTENT_TYPE] == MediaType(format)
    ensures forall k :: k in headers && k != CONTENT_DISPOSITION && k != Http.CONTENT_TYPE ==> r[k] == headers[k]
  {
    headers[CONTENT_DISPOSITION := ContentDisposition(title, format)][Http.CONTENT_TYPE := MediaType(format)]
  }
}
