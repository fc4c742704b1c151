/**
 * The metadata resolver and format selector of server/services/youtube.service.ts.
 *
 * Both operations follow one pattern: reject a URL that fails the predicate,
 * call the extractor, and replace any extractor error with a fixed message.
 * The URL predicate is the parameter `isValid` (the module imports
 * `isYouTubeUrl` from server/utils/validation.ts, which exports only
 * `validateUrl`), and the extractor is the parameter `youtubeDl`.
 */
module YouTubeService {
  import opened Wrappers
  import opened YouTubeTypes
  import Duration

  const INVALID_URL := "Invalid YouTube URL"
  const INFO_FAILED := "Failed to fetch video information"
  const DOWNLOAD_FAILED := "Failed to download video"

  const OUTPUT_TEMPLATE := "%(title)s.%(ext)s"
  // The two format chains, written one fallback alternative per literal.
  const BEST_CHAIN := "bestvideo[ext=mp4]+" + "bestaudio[ext=m4a]/" + "best[ext=mp4]/" + "best"
  const WORST_CHAIN := "worstvideo[ext=mp4]+" + "worstaudio[ext=m4a]/" + "worst[ext=mp4]/" + "worst"

  /** Options of the metadata call: a JSON dump, no certificate checks, no warnings. */
  const INFO_FLAGS := ExtractorFlags(true, true, true, false, None, None)

  /**
   * The fallback chain for one quality tier: merged video+audio in mp4/m4a,
   * else one combined mp4 stream, else any container.
   */
  function Chain(tier: string): string
  {
    tier + "video[ext=mp4]+" + tier + "audio[ext=m4a]/" + tier + "[ext=mp4]/" + tier
  }

  /** The two literal chains are the same three-tier chain, at `best` and at `worst`. */
  lemma ChainsMirror()
    ensures BEST_CHAIN == Chain("best")
    ensures WORST_CHAIN == Chain("worst")
  {
    assert "best" + "video[ext=mp4]+" == "bestvideo[ext=mp4]+";
    assert "best" + "audio[ext=m4a]/" == "bestaudio[ext=m4a]/";
    assert "best" + "[ext=mp4]/" == "best[ext=mp4]/";
    assert "worst" + "video[ext=mp4]+" == "worstvideo[ext=mp4]+";
    assert "worst" + "audio[ext=m4a]/" == "worstaudio[ext=m4a]/";
    assert "worst" + "[ext=mp4]/" == "worst[ext=mp4]/";
  }

  /** The selection policy of `downloadVideo`: total over every (format, quality) pair. */
  function Select(format: VideoFormat, quality: VideoQuality): (s: Selection)
    ensures format == AUDIO ==> s == ExtractAudio("mp3", 0)
    ensures format == VIDEO ==> s == FormatChain(Chain(if quality == HIGHEST then "best" else "worst"))
  {
    ChainsMirror();
    if format == AUDIO then ExtractAudio("mp3", 0)
    else FormatChain(if quality.Wire() == "highest" then BEST_CHAIN else WORST_CHAIN)
  }

  /** Audio ignores the quality; for video, the two qualities give different chains. */
  lemma SelectQualityEffect()
    ensures Select(AUDIO, HIGHEST) == Select(AUDIO, LOWEST)
    ensures Select(VIDEO, HIGHEST) != Select(VIDEO, LOWEST)
  {
    assert BEST_CHAIN[0] != WORST_CHAIN[0];
  }

  /** Options of the download call: the base flags with the selection spread in. */
  function DownloadFlags(format: VideoFormat, quality: VideoQuality): (flags: ExtractorFlags)
    ensures flags.noCheckCertificates && flags.noWarnings && flags.preferFreeFormats
    ensures !flags.dumpSingleJson
    ensures flags.selection == Some(Select(format, quality)) && flags.output == Some(OUTPUT_TEMPLATE)
  {
    ExtractorFlags(false, true, true, true, Some(Select(format, quality)), Some(OUTPUT_TEMPLATE))
  }

  /** The metadata record built from a successful extractor dump. */
  function InfoOf(raw: RawInfo): (info: VideoInfo)
    ensures info.title == raw.title && info.thumbnail == raw.thumbnail && info.formats == raw.formats
    ensures Duration.ParseDuration(info.duration) == Some(raw.duration)
  {
    VideoInfo(raw.title, Duration.FormatDuration(raw.duration), raw.thumbnail, raw.formats)
  }

  /**
   * `getVideoInfo`: a rejected URL fails with INVALID_URL before the extractor
   * is consulted; any extractor error becomes INFO_FAILED; otherwise the dump's
   * fields are passed through with the duration formatted.
   */
  function GetVideoInfo(isValid: string -> bool, youtubeDl: Extractor<RawInfo>, url: string)
    : (r: Result<VideoInfo, string>)
    ensures !isValid(url) ==> r == Failure(INVALID_URL)
    ensures isValid(url) && youtubeDl(url, INFO_FLAGS).Failure? ==> r == Failure(INFO_FAILED)
    ensures isValid(url) && youtubeDl(url, INFO_FLAGS).Success? ==> r == Success(InfoOf(youtubeDl(url, INFO_FLAGS).value))
  {
    if !isValid(url) then Failure(INVALID_URL)
    else
      match youtubeDl(url, INFO_FLAGS)
      case Failure(_) => Failure(INFO_FAILED)
      case Success(raw) => Success(InfoOf(raw))
  }

  /** No upstream error text reaches the caller: every failure is one of two fixed messages. */
  lemma GetVideoInfoErrorsAreFixed(isValid: string -> bool, youtubeDl: Extractor<RawInfo>, url: string)
    ensures GetVideoInfo(isValid, youtubeDl, url).Failure? ==>
              GetVideoInfo(isValid, youtubeDl, url).error in {INVALID_URL, INFO_FAILED}
  {
  }

  /** A rejected URL never reaches the extractor: the result is the same whatever the extractor does. */
  lemma GetVideoInfoShortCircuits(isValid: string -> bool, a: Extractor<RawInfo>, b: Extractor<RawInfo>, url: string)
    requires !isValid(url)
    ensures GetVideoInfo(isValid, a, url) == GetVideoInfo(isValid, b, url)
  {
  }

  /**
   * `downloadVideo`: the same pattern with the download options and the
   * message DOWNLOAD_FAILED; a successful extractor result is returned unchanged.
   */
  function DownloadVideo<T>(isValid: string -> bool, youtubeDl: Extractor<T>, url: string,
                            format: VideoFormat, quality: VideoQuality): (r: Result<T, string>)
    ensures !isValid(url) ==> r == Failure(INVALID_URL)
    ensures isValid(url) && youtubeDl(url, DownloadFlags(format, quality)).Failure? ==> r == Failure(DOWNLOAD_FAILED)
    ensures isValid(url) && youtubeDl(url, DownloadFlags(format, quality)).Success? ==>
              r == youtubeDl(url, DownloadFlags(format, quality))
    ensures r.Failure? ==> r.error in {INVALID_URL, DOWNLOAD_FAILED}
  {
    if !isValid(url) then Failure(INVALID_URL)
    else
      match youtubeDl(url, DownloadFlags(format, quality))
      case Failure(_) => Failure(DOWNLOAD_FAILED)
      case Success(download) => Success(download)
  }
}
