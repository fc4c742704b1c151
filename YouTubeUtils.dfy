/**
 * The helper versions of the two extractor calls (server/utils/youtube.ts):
 * the same validate, call, map-error pattern as the service, but the download
 * options ignore quality and always ask for a JSON dump, and the metadata is
 * returned as the extractor produced it.
 */
module YouTubeUtils {
  import opened Wrappers
  import opened YouTubeTypes
  import YouTubeService

  /** `downloadVideo`'s selection: audio transcoding, or the fixed best-quality chain. */
  function Select(format: VideoFormat): (s: Selection)
    ensures format == AUDIO ==> s == ExtractAudio("mp3", 0)
    ensures format == VIDEO ==> s == FormatChain(YouTubeService.Chain("best"))
  {
    YouTubeService.ChainsMirror();
    if format.Wire() == "audio" then ExtractAudio("mp3", 0) else FormatChain(YouTubeService.BEST_CHAIN)
  }

  /** The helper selects what the service selects at the default quality, whatever the format. */
  lemma SelectIsServiceAtHighest(format: VideoFormat)
    ensures Select(format) == YouTubeService.Select(format, HIGHEST)
  {
  }

  /** The base flags, all set, with the selection spread in. */
  function DownloadFlags(format: VideoFormat): (flags: ExtractorFlags)
    ensures flags.dumpSingleJson && flags.noCheckCertificates && flags.noWarnings && flags.preferFreeFormats
    ensures flags.selection == Some(Select(format)) && flags.output == Some(YouTubeService.OUTPUT_TEMPLATE)
  {
    ExtractorFlags(true, true, true, true, Some(Select(format)), Some(YouTubeService.OUTPUT_TEMPLATE))
  }

  /** The helper's download options differ from the service's only in asking for a JSON dump. */
  lemma DownloadFlagsVersusService(format: VideoFormat)
    ensures DownloadFlags(format) == YouTubeService.DownloadFlags(format, HIGHEST).(dumpSingleJson := true)
  {
  }

  function DownloadVideo<T>(isValid: string -> bool, youtubeDl: Extractor<T>, url: string, format: VideoFormat)
    : (r: Result<T, string>)
    ensures !isValid(url) ==> r == Failure(YouTubeService.INVALID_URL)
    ensures isValid(url) && youtubeDl(url, DownloadFlags(format)).Failure? ==> r == Failure(YouTubeService.DOWNLOAD_FAILED)
    ensures isValid(url) && youtubeDl(url, DownloadFlags(format)).Success? ==> r == youtubeDl(url, DownloadFlags(format))
    ensures r.Failure? ==> r.error in {YouTubeService.INVALID_URL, YouTubeService.DOWNLOAD_FAILED}
  {
    if !isValid(url) then Failure(YouTubeService.INVALID_URL)
    else
      match youtubeDl(url, DownloadFlags(format))
      case Failure(_) => Failure(YouTubeService.DOWNLOAD_FAILED)
      case Success(info) => Success(info)
  }

  /** `getVideoInfo`: the extractor's dump unchanged, or one of two fixed messages. */
  function GetVideoInfo<T>(isValid: string -> bool, youtubeDl: Extractor<T>, url: string): (r: Result<T, string>)
    ensures !isValid(url) ==> r == Failure(YouTubeService.INVALID_URL)
    ensures isValid(url) && youtubeDl(url, YouTubeService.INFO_FLAGS).Failure? ==> r == Failure(YouTubeService.INFO_FAILED)
    ensures isValid(url) && youtubeDl(url, YouTubeService.INFO_FLAGS).Success? ==> r == youtubeDl(url, YouTubeService.INFO_FLAGS)
    ensures r.Failure? ==> r.error in {YouTubeService.INVALID_URL, YouTubeService.INFO_FAILED}
  {
    if !isValid(url) then Failure(YouTubeService.INVALID_URL)
    else
      match youtubeDl(url, YouTubeService.INFO_FLAGS)
      case Failure(_) => Failure(YouTubeService.INFO_FAILED)
      case Success(info) => Success(info)
  }
}
