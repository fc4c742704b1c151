/**
 * The server's shared vocabulary (server/types/youtube.ts): the requested media
 * kind and quality, the metadata returned to clients, and the interface of the
 * external extractor (`youtube-dl-exec`), which is a function parameter
 * everywhere it is called.
 */
module YouTubeTypes {
  import opened Wrappers

  /** `VideoFormat`: the kind of media requested. */
  datatype VideoFormat = AUDIO | VIDEO
  {
    /** The enum's string value, as it travels in a request body. */
    function Wire(): string
    {
      match this
      case AUDIO => "audio"
      case VIDEO => "video"
    }
  }

  /** `VideoQuality`: the quality preference for video downloads. */
  datatype VideoQuality = HIGHEST | LOWEST
  {
    function Wire(): string
    {
      match this
      case HIGHEST => "highest"
      case LOWEST => "lowest"
    }
  }

  /**
   * The `format` field of a request body as the handlers read it: every test
   * in the server is `format === 'audio'`, so every other value (and an absent
   * field) behaves as VIDEO.
   */
  function FormatOfRaw(raw: Option<string>): (format: VideoFormat)
    ensures format == AUDIO <==> raw == Some("audio")
  {
    if raw == Some("audio") then AUDIO else VIDEO
  }

  /**
   * The `quality` field: an absent field takes the default `'highest'`, and the
   * selector tests `quality === 'highest'`, so every other value behaves as LOWEST.
   */
  function QualityOfRaw(raw: Option<string>): (quality: VideoQuality)
    ensures quality == HIGHEST <==> raw == None || raw == Some("highest")
  {
    if raw == None || raw == Some("highest") then HIGHEST else LOWEST
  }

  /** JavaScript truthiness of a string field: an absent field and `''` are both falsy. */
  predicate Truthy(field: Option<string>)
  {
    field.Some? && field.value != ""
  }

  /** Reading an enum's own string value gives the enum back. */
  lemma WireRoundTrip(format: VideoFormat, quality: VideoQuality)
    ensures FormatOfRaw(Some(format.Wire())) == format
    ensures QualityOfRaw(Some(quality.Wire())) == quality
  {
  }

  /** One entry of the upstream format list, passed through uninterpreted. */
  datatype FormatEntry = FormatEntry(descriptor: string)

  /** `VideoInfo`: the metadata sent to clients; `duration` is already formatted. */
  datatype VideoInfo = VideoInfo(title: string, duration: string, thumbnail: string, formats: seq<FormatEntry>)

  /** The fields of the extractor's JSON dump that the server reads; `duration` in whole seconds. */
  datatype RawInfo = RawInfo(title: string, duration: nat, thumbnail: string, formats: seq<FormatEntry>)

  /** What to fetch: transcode to audio, or a format expression with fallbacks. */
  datatype Selection =
    | ExtractAudio(audioFormat: string, audioQuality: nat)
    | FormatChain(format: string)

  /** The option object passed to the extractor. */
  datatype ExtractorFlags = ExtractorFlags(
    dumpSingleJson: bool,
    noCheckCertificates: bool,
    noWarnings: bool,
    preferFreeFormats: bool,
    selection: Option<Selection>,
    output: Option<string>)

  /** The external extractor: a URL and options give a result or a thrown error's text. */
  type Extractor<T> = (string, ExtractorFlags) -> Result<T, string>
}
