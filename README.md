# Youtube-Tools in Dafny

This project models the request-handling core of Youtube-Tools and proves properties about it. Youtube-Tools is a small web application that resolves YouTube video metadata, downloads audio or video through an extractor, guards its endpoints with an API key, and generates hashtag sets in the browser.

Modelled parts:

- **URL gate** (`UrlValidation`, `UrlParser`). It covers `isYouTubeUrl`, which is an exact allow-list of four host names, and `getErrorMessage`, which runs its three checks in order.
  - The gate takes the URL parser as a parameter.
  - `UrlParser.SimpleHostname` models the part of the WHATWG URL Standard's basic URL parser that decides `new URL(url).hostname`:
    - leading and trailing C0 controls and spaces are trimmed, and tabs and newlines are removed;
    - the scheme;
    - the authority of special schemes (any run of `/` and `\` is skipped) and of other schemes (only after `//`);
    - user information;
    - a port of digits denoting at most 65535;
    - the forbidden host and domain code points;
    - lower-casing under a special scheme;
    - the host of `file:` URLs.
  - The lemmas at the end of `UrlValidation` instantiate the gate with this parser.
- **Service layer** (`Duration`, `YouTubeService`, `YouTubeUtils`). This covers:
  - the duration formatter, with its inverse and a round trip;
  - the format/quality selection policy and the extractor flags;
  - metadata resolution and the download call.
  - Every extractor error is replaced by a fixed message. The extractor is a parameter.
- **HTTP layer** (`Http`, `MediaHeaders`, `YouTubeController`, `Auth`, `DownloadServer`).
  - An Express response is a class whose fields the handlers update. `ResponseState` is its value at one moment.
  - Each handler method is proved to leave the response in the state given by a pure outcome function. The properties of the handlers are lemmas about those functions:
    - status codes;
    - fixed error bodies;
    - which collaborators are consulted before a rejection;
    - the media headers, and the header values Node refuses;
    - the `headersSent` guard;
    - the key check.
- **Hashtag generator** (`HashtagTags`, `HashtagComponent`).
  - The keyword-to-tag pipeline.
  - The de-duplicated candidate list.
  - The random pick, which is an arbitrary permutation followed by a prefix.
  - The component's state as a class with its four handlers.
- **Shared helpers** (`Text`, `Seqs`, `Wrappers`). These are the JavaScript string and array operations the core relies on:
  - lower-casing;
  - `split`;
  - `filter`;
  - `new Set`;
  - `slice`;
  - `toString`.

## Model

| member | source | states |
|---|---|---|
| UrlValidation.IsYouTubeUrl | src/utils/validation.ts:1-13 | true exactly when the URL parses and its host name is one of youtube.com, www.youtube.com, youtu.be, m.youtube.com |
| UrlValidation.OnlyHostnameMatters | src/utils/validation.ts:3-9 | two URLs with the same parsed host name get the same verdict |
| UrlValidation.ErrorMessage | src/utils/validation.ts:15-24 | the message is empty exactly when the URL is non-empty, starts with http:// or https:// and passes the host gate; otherwise it is one of the three fixed messages |
| UrlValidation.ErrorMessageOrder | src/utils/validation.ts:16-22 | each message names the first failing check: empty, then scheme, then host |
| UrlParser.TakeWhile | src/utils/validation.ts:3 | the longest prefix whose characters satisfy the test, stopping at the first one that fails |
| UrlParser.TrimStart | src/utils/validation.ts:3 | a suffix of the input; every dropped character is a C0 control or space, and the result does not start with one |
| UrlParser.TrimEnd | src/utils/validation.ts:3 | a prefix of the input; every dropped character is a C0 control or space, and the result does not end with one |
| UrlParser.RemoveTabsAndNewlines | src/utils/validation.ts:3 | no tab, LF or CR is left, and nothing is added |
| UrlParser.Preprocess | src/utils/validation.ts:3 | the cleaned input holds no tab or newline and is no longer than the input |
| UrlParser.PreprocessKeepsOut | src/utils/validation.ts:3 | cleaning never introduces a character the input lacks |
| UrlParser.PreprocessOf | src/utils/validation.ts:3 | cleaning keeps a prefix free of C0 controls and spaces, and the cleaned rest starts with the same character as before |
| UrlParser.PreprocessDropsTab | src/utils/validation.ts:3 | a tab inside the input and a space at its end are dropped |
| UrlParser.WithoutUserinfo | src/utils/validation.ts:3 | the authority with everything up to its last `@` removed: a suffix of the authority that holds no `@`; the authority itself when it has none; otherwise strictly shorter and preceded by an `@` |
| UrlParser.HostOfAuthority | src/utils/validation.ts:3 | a host comes back only with a port part in range; it is free of forbidden host code points; under a special scheme it is non-empty, free of forbidden domain code points and lower-case |
| UrlParser.LowerDomain | src/utils/validation.ts:3 | lower-casing a domain leaves it free of forbidden code points and without upper-case letters |
| UrlParser.FileHost | src/utils/validation.ts:3 | the host of a `file:` URL is free of forbidden domain code points |
| UrlParser.HostAfterScheme | src/utils/validation.ts:3 | any host is free of forbidden host code points; under a special scheme other than `file` it is non-empty and lower-case |
| UrlParser.SimpleHostname | src/utils/validation.ts:3 | the same two facts, stated for the scheme the parser reads from the URL |
| UrlParser.ParseHostOf | src/utils/validation.ts:3 | on a cleaned `scheme://host[:port]` followed by `/`, `?`, `#` or nothing: the host, lower-cased under a special scheme, when the port is in range; failure when it is not |
| UrlParser.SimpleHostnameOf | src/utils/validation.ts:3 | the same for the raw URL, for every scheme but `file` and every plain host: the scheme, path, query and fragment do not take part |
| UrlParser.SimpleHostnameOfLower | src/utils/validation.ts:3 | a lower-case plain host with an in-range port comes back unchanged, whatever the scheme (except `file`) |
| UrlValidation.GateIgnoresSchemePortAndPath | src/utils/validation.ts:1-13 | on such a URL the verdict is true exactly when the port is in range and the host, lower-cased under a special scheme, is one of the four |
| UrlValidation.AllowedHostsArePlain | src/utils/validation.ts:5-8 | the four allowed names are plain hosts (ASCII letters, digits, single dots, a last label starting with a letter) with no upper-case letter |
| UrlValidation.AllowedHostPasses | src/utils/validation.ts:1-13 | https on any allowed host, with any in-range port and any path or query, passes the host gate |
| UrlValidation.HttpsOnAllowedHostAccepted | src/utils/validation.ts:15-24 | such a URL gets the empty message |
| UrlValidation.PassingUrlHasNoMessage | src/utils/validation.ts:15-24 | a URL with an http or https scheme that passes the host gate gets the empty message |
| UrlValidation.PortOutOfRangeRejected | src/utils/validation.ts:1-24 | a port above 65535 makes the parser throw, so even an allowed host gets the host message |
| UrlValidation.HighPortExample | src/utils/validation.ts:15-24 | `https://youtube.com:70000` gets the host message |
| UrlValidation.TabAndTrailingSpaceIgnored | src/utils/validation.ts:1-24 | a tab inside an allowed host name and a trailing space are dropped by the parser: the URL parses to the allowed host and gets the empty message |
| UrlValidation.UnlistedHostRejected | src/utils/validation.ts:5-8 | matching is exact: any lower-case plain host other than the four is rejected, whatever the scheme and port |
| UrlValidation.SubdomainRejected | src/utils/validation.ts:5-8 | music.youtube.com is rejected |
| UrlValidation.LongerHostRejected | src/utils/validation.ts:5-8 | youtube.com.evil.com is rejected |
| UrlValidation.OtherSchemeOnAllowedHost | src/utils/validation.ts:1-13 | the host gate alone accepts ftp://youtube.com with any in-range port |
| UrlValidation.SchemeCheckedBeforeHost | src/utils/validation.ts:17-19 | yet ftp://youtube.com gets the scheme message, because the scheme check comes first |
| UrlValidation.NoSchemeRejected | src/utils/validation.ts:10-12 | a string with no colon does not parse and is never a YouTube URL |
| YouTubeTypes.FormatOfRaw | server/types/youtube.ts:1-4 | the format is AUDIO exactly when the request says "audio"; anything else is treated as video |
| YouTubeTypes.QualityOfRaw | server/controllers/youtube.controller.ts:25 | the quality is HIGHEST exactly when it is absent (the default) or "highest" |
| YouTubeTypes.WireRoundTrip | server/types/youtube.ts:1-9 | reading an enum's own string value gives the enum back |
| Duration.PadStart2 | server/services/youtube.service.ts:12 | the result is at least two characters, ends with the input and is padded with '0' on the left |
| Duration.Hours | server/services/youtube.service.ts:7 | the whole hours: h·3600 ≤ seconds < (h+1)·3600 |
| Duration.Minutes | server/services/youtube.service.ts:8 | the whole minutes of the remainder after the hours, below 60 |
| Duration.Seconds | server/services/youtube.service.ts:9 | the seconds left after the whole minutes, below 60 |
| Duration.FieldsRecombine | server/services/youtube.service.ts:7-9 | hours·3600 + minutes·60 + seconds equals the input; minutes and seconds are below 60 |
| Duration.ClockField | server/services/youtube.service.ts:12 | a field below 60 renders as exactly two digits with the same value |
| Duration.FormatDurationShape | server/services/youtube.service.ts:11-14 | one hour or more gives three colon-separated fields: the hours unpadded, then the minutes and the seconds as two digits each; less gives two: the minutes unpadded, then the seconds as two digits |
| Duration.ClockRoundTrip | server/services/youtube.service.ts:11-14 | reading the rendered fields back gives their weighted sum |
| Duration.FormatDuration | server/services/youtube.service.ts:6-15 | parsing the formatted duration gives back the number of seconds |
| Duration.ParseDuration | server/services/youtube.service.ts:11-14 | the inverse reader accepts exactly two or three colon-separated numerals |
| Duration.FormatDurationInjective | server/services/youtube.service.ts:6-15 | two durations that render alike are equal |
| Duration.FormatDurationSecondsExample | server/services/youtube.service.ts:14 | 45 renders as 0:45 |
| Duration.FormatDurationMinuteExample | server/services/youtube.service.ts:14 | 125 renders as 2:05 |
| Duration.FormatDurationHourExample | server/services/youtube.service.ts:12 | 3725 renders as 1:02:05 |
| Duration.FormatDurationLongExample | server/services/youtube.service.ts:7-12 | hours are neither capped nor padded: 360000 renders as 100:00:00 |
| YouTubeService.ChainsMirror | server/services/youtube.service.ts:54-56 | the two literal format chains are one three-tier fallback chain instantiated at best and at worst |
| YouTubeService.Select | server/services/youtube.service.ts:46-58 | audio gives mp3 extraction at quality 0; video gives the best chain for HIGHEST and the worst chain otherwise |
| YouTubeService.SelectQualityEffect | server/services/youtube.service.ts:46-58 | quality has no effect on audio, and the two qualities give different video selections |
| YouTubeService.DownloadFlags | server/services/youtube.service.ts:61-66 | the download call asks for no JSON dump, sets the three base flags, and spreads in the selection and output template |
| YouTubeService.InfoOf | server/services/youtube.service.ts:29-34 | title, thumbnail and formats pass through, and the duration text parses back to the raw seconds |
| YouTubeService.GetVideoInfo | server/services/youtube.service.ts:17-39 | a rejected URL gives the invalid-URL error; an extractor failure gives the fixed fetch message; otherwise the built metadata |
| YouTubeService.GetVideoInfoErrorsAreFixed | server/services/youtube.service.ts:17-39 | every failure is one of two fixed messages, so no extractor error text leaks |
| YouTubeService.GetVideoInfoShortCircuits | server/services/youtube.service.ts:18-20 | for a rejected URL the result is the same whatever the extractor does |
| YouTubeService.DownloadVideo | server/services/youtube.service.ts:41-71 | URL rejection, then the extractor's result unchanged on success or the fixed download message on failure |
| YouTubeUtils.Select | server/utils/youtube.ts:14-24 | audio extraction, or always the best video chain |
| YouTubeUtils.SelectIsServiceAtHighest | server/utils/youtube.ts:14-24 | the helper selects what the service selects at the default quality |
| YouTubeUtils.DownloadFlags | server/utils/youtube.ts:27-33 | all four base flags are set, including the JSON dump, with the selection spread in |
| YouTubeUtils.DownloadFlagsVersusService | server/utils/youtube.ts:27-33 | the helper's options differ from the service's only in asking for a JSON dump |
| YouTubeUtils.DownloadVideo | server/utils/youtube.ts:9-40 | URL rejection, extractor result unchanged, or the fixed download message |
| YouTubeUtils.GetVideoInfo | server/utils/youtube.ts:42-59 | URL rejection, the raw dump unchanged, or the fixed fetch message |
| Http.WithJsonType | server/controllers/youtube.controller.ts:15 | `res.json` chooses application/json only when no Content-Type is set, and the string body then gets `; charset=utf-8` appended to the type; no other modelled header changes |
| Http.HeaderSafeConcat | server/controllers/youtube.controller.ts:38 | a concatenation is a legal header value exactly when both parts are |
| Http.Replied | server/controllers/youtube.controller.ts:11 | after status-then-json the response is ended, holds exactly the one payload, and has the given code |
| Http.BytesOf | server/controllers/youtube.controller.ts:41 | one body payload per stream chunk, in order |
| Http.Piped | server/controllers/youtube.controller.ts:41 | piping keeps status and headers, appends every chunk in order, flushes the headers once data or the end arrives, and ends the response exactly when the stream does not fail |
| Http.EarlyFaultLeavesHeadersUnsent | server/index.js:47-52 | a stream that fails before its first chunk leaves the headers unsent |
| Http.Response.constructor | server/controllers/youtube.controller.ts:6 | a fresh response: 200, no headers, nothing sent |
| Http.Response.Status | server/controllers/youtube.controller.ts:11 | sets the status code and nothing else |
| Http.Response.Header | server/controllers/youtube.controller.ts:38-39 | succeeds exactly when every character of the value is a tab, printable ASCII or in U+0080–U+00FF; then it sets that one header, otherwise (Node throws) nothing changes |
| Http.Response.Json | server/controllers/youtube.controller.ts:15 | leaves the state that `Replied` describes |
| Http.Response.Write | server/controllers/youtube.controller.ts:41 | appends one chunk and flushes the headers |
| Http.Response.End | server/controllers/youtube.controller.ts:41 | flushes the headers and ends the response |
| Http.Response.Pipe | server/controllers/youtube.controller.ts:41 | the chunk loop leaves exactly the state that `Piped` describes and reports the stream's failure |
| MediaHeaders.Extension | server/controllers/youtube.controller.ts:38 | three letters: mp3 exactly for audio, mp4 for video |
| MediaHeaders.MediaType | server/controllers/youtube.controller.ts:39 | audio/mpeg exactly for audio, video/mp4 for video |
| MediaHeaders.MediaTypeHeaderSafe | server/controllers/youtube.controller.ts:39 | both media types are legal header values |
| MediaHeaders.ContentDisposition | server/controllers/youtube.controller.ts:38 | the header is as long as the attachment prefix, the title and `.ext"` together |
| MediaHeaders.ContentDispositionSafe | server/controllers/youtube.controller.ts:38 | the attachment header is a legal header value exactly when the title is |
| MediaHeaders.ExtensionAgreesWithMediaType | server/controllers/youtube.controller.ts:38-39 | the extension and the Content-Type always describe the same kind of file |
| MediaHeaders.ContentDispositionNamesFile | server/controllers/youtube.controller.ts:38 | the header is the attachment prefix, the title unchanged, then a dot, the extension and a closing quote |
| MediaHeaders.ContentDispositionInjective | server/controllers/youtube.controller.ts:38 | different titles give different headers |
| MediaHeaders.WithMediaHeaders | server/controllers/youtube.controller.ts:38-39 | both media headers are set to those values; every other header is unchanged |
| YouTubeController.GetVideoInfo | server/controllers/youtube.controller.ts:6-21 | the handler leaves the response that `InfoOutcome` describes |
| YouTubeController.InfoOutcome | server/controllers/youtube.controller.ts:6-21 | the response always ends with exactly one JSON payload |
| YouTubeController.InfoMissingUrl | server/controllers/youtube.controller.ts:10-12 | an absent or empty URL gives 400 "URL is required", whatever the service would do |
| YouTubeController.InfoFailureIsGeneric | server/controllers/youtube.controller.ts:17-20 | any service failure gives 500 with the fixed fetch message |
| YouTubeController.InfoSuccess | server/controllers/youtube.controller.ts:14-15 | metadata is sent exactly when the URL is present and accepted and the dump succeeds; the status is then untouched and the info is the built metadata |
| YouTubeController.Stage | server/controllers/youtube.controller.ts:25-36 | the handler first needs a URL, then metadata, then the download, each stage an if-and-only-if on the collaborators' answers; when ready, the format, title and download are the ones the service returned |
| YouTubeController.DownloadVideo | server/controllers/youtube.controller.ts:23-47 | the handler leaves the response that `DownloadOutcome` describes |
| YouTubeController.DownloadOutcome | server/controllers/youtube.controller.ts:23-47 | the response stays well formed (nothing written before the headers flush, ended only after flushing); the status is untouched, 400 or 500 |
| YouTubeController.Respond | server/controllers/youtube.controller.ts:27-46 | every stage before ready ends the response with one JSON payload under a JSON Content-Type: 400 for a missing URL, 500 otherwise |
| YouTubeController.Delivered | server/controllers/youtube.controller.ts:38-45 | a title Node refuses in the header, or a result that cannot be piped, ends the response with 500 "Download failed"; only a stream keeps the status |
| YouTubeController.ReadyDelivers | server/controllers/youtube.controller.ts:31-41 | once metadata and download succeed, the response is the delivery of the fetched title and the download |
| YouTubeController.DeliveredHeaders | server/controllers/youtube.controller.ts:38-45 | with a legal title both media headers are set; a stream keeps the media type, and the 500 for an unpipeable result gets the charset appended to it |
| YouTubeController.Deliver | server/controllers/youtube.controller.ts:38-45 | setting the media headers, with a refused attachment header turning into the generic 500, and piping leave the state that `Delivered` describes |
| YouTubeController.DownloadMissingUrl | server/controllers/youtube.controller.ts:27-29 | an absent or empty URL gives 400 and consults neither extractor |
| YouTubeController.DownloadMetadataFirst | server/controllers/youtube.controller.ts:31-46 | when metadata fails, the answer is 500 "Download failed" and the download extractor is never consulted |
| YouTubeController.DownloadErrorsAreGeneric | server/controllers/youtube.controller.ts:27-46 | any JSON error is the whole body of an ended response, with one of two fixed messages and status 400 or 500 |
| YouTubeController.DownloadEarlyFailureHasNoMediaHeaders | server/controllers/youtube.controller.ts:27-46 | a failure before the headers are set adds no media header |
| YouTubeController.DownloadHeaders | server/controllers/youtube.controller.ts:38-39 | once ready and with a legal title, the filename carries the raw title with the format's extension, and the Content-Type is the format's media type |
| YouTubeController.DownloadUnsafeTitleFails | server/controllers/youtube.controller.ts:38-45 | a title with a character Node refuses in a header gives 500 "Download failed", whatever the download |
| YouTubeController.NonLatinTitleIsUnsafe | server/controllers/youtube.controller.ts:38 | a title with a character above U+00FF, such as ☕, is refused |
| YouTubeController.NotPipeableKeepsMediaHeaders | server/controllers/youtube.controller.ts:38-45 | if the download result cannot be piped, the 500 JSON error goes out under the attachment header and the media type with the charset appended |
| YouTubeController.DownloadStreams | server/controllers/youtube.controller.ts:41 | with a legal title, a streamable download keeps the status and carries exactly the chunks; the response ends exactly when the stream does not fail |
| Auth.KeyAccepted | server/middleware/auth.ts:7 | accepted exactly when the key is present, non-empty and equal to the configured key |
| Auth.MissingKeyRejected | server/middleware/auth.ts:7 | an absent or empty key is rejected whatever is configured |
| Auth.UnsetKeyRejectsAll | server/middleware/auth.ts:7 | with no key configured, every request is rejected |
| Auth.OnlyTheConfiguredKey | server/middleware/auth.ts:7 | with a non-empty key configured, exactly that key is accepted |
| Auth.ValidateApiKey | server/middleware/auth.ts:4-12 | either the next handler runs and the response is untouched, or the response is a finished 401 "Unauthorized" |
| DownloadServer.ValidateApiKey | server/index.js:15-21 | the same rule, answering 401 "Invalid API key" |
| DownloadServer.SanitizeTitle | server/index.js:37 | only word and space characters remain, and the title never gets longer |
| DownloadServer.SanitizeTitleFilters | server/index.js:37 | the result is a subsequence of the title; sanitising twice changes nothing; each kept character keeps its count and every other character is gone |
| DownloadServer.SanitizeTitleExample | server/index.js:37 | "Foo: Bar?!" becomes "Foo Bar" |
| DownloadServer.StreamOptionsFor | server/index.js:42-45 | audio asks for audioonly at highestaudio; video asks for videoandaudio at highest |
| DownloadServer.StreamOptionsAgreeWithHeaders | server/index.js:39-45 | the stream asked for is the kind of file the headers announce |
| DownloadServer.Route | server/index.js:26-45 | the URL must be present, then pass the validator, then have metadata, then give a legal attachment header, then open; each stage is an if-and-only-if, the title is the sanitised title and a stream is the one opened with the format's options |
| DownloadServer.DownloadRoute | server/index.js:24-61 | the handler leaves the response that `RouteOutcome` describes |
| DownloadServer.RouteOutcome | server/index.js:24-61 | the response stays well formed; the status is untouched, 400 or 500 |
| DownloadServer.StreamedOutcome | server/index.js:47-54 | piping keeps or replaces the status with 500; the response ends exactly when the stream succeeds or fails before any data; the body starts with the chunks |
| DownloadServer.StreamedErrorIsWholeBody | server/index.js:47-54 | after piping, a JSON error is the whole body of an ended response and says "Download failed": a stream that delivered data never gets one |
| DownloadServer.PipeGuarded | server/index.js:47-54 | registering the guarded error listener and piping leaves the state that `StreamedOutcome` describes |
| DownloadServer.PostDownload | server/index.js:15-24 | the key check runs first; a rejected key gives 401 and the route does not run |
| DownloadServer.RouteRejectsEarly | server/index.js:28-34 | a missing URL gives 400 before the validator runs, and an invalid URL gives 400 before any lookup |
| DownloadServer.StreamErrorGuarded | server/index.js:47-54 | once data has flowed a stream error adds nothing; a failure before any data gives 500 "Download failed" |
| DownloadServer.RouteErrorIsWholeBody | server/index.js:28-60 | a JSON error is always the whole body of an ended response and is one of three fixed messages |
| DownloadServer.RouteHeaders | server/index.js:37-40 | once the title is known and legal in a header, the filename carries the sanitised title; the Content-Type is the media type, with the charset appended when the open failed |
| DownloadServer.RouteUnsafeTitleFails | server/index.js:39-59 | a sanitised title Node refuses in a header gives 500 "Download failed" and no stream is opened |
| DownloadServer.SanitizedTitleCanBeUnsafe | server/index.js:37-39 | sanitising keeps non-Latin whitespace such as U+3000, which Node then refuses |
| DownloadServer.FilenamesDifferFromController | server/index.js:37-39 | for the same title, this route and the controller announce different filenames |
| HashtagTags.CategoryListsRepeatTags | src/components/HashtagGenerator.tsx:22-42 | the business, education and creative lists each name one tag twice |
| HashtagTags.SplitOnRuns | src/components/HashtagGenerator.tsx:72 | a split that yields at least one word |
| HashtagTags.IsLongWord | src/components/HashtagGenerator.tsx:73 | `length > 2` in UTF-16 code units: true for more than two characters, and only for at least two |
| HashtagTags.LongWordsOfSplit | src/components/HashtagGenerator.tsx:72-73 | after dropping short words, splitting on separator runs is the same as splitting on every separator |
| HashtagTags.PiecesChars | src/components/HashtagGenerator.tsx:72 | every split word is made of input characters and holds no separator |
| HashtagTags.TagOf | src/components/HashtagGenerator.tsx:74 | a tag is `#` followed by word characters only, taken from the word in order |
| HashtagTags.TagOfKeepsWordChars | src/components/HashtagGenerator.tsx:74 | the tag keeps every word character of the word as often as it occurs, in order, and nothing else |
| HashtagTags.TagOfChars | src/components/HashtagGenerator.tsx:74 | every character after the `#` comes from the word |
| HashtagTags.TagsOf | src/components/HashtagGenerator.tsx:74 | one tag per word, in order |
| HashtagTags.KeywordTagsShape | src/components/HashtagGenerator.tsx:69-75 | every tag is `#` followed by lower-case word characters drawn from the lower-cased keyword |
| HashtagTags.KeywordTags | src/components/HashtagGenerator.tsx:69-75 | an empty keyword gives no tags; otherwise one tag per word of more than two code units |
| HashtagTags.KeywordTagsKeepWordChars | src/components/HashtagGenerator.tsx:71-74 | the k-th tag is `#` followed by exactly the word characters of the k-th long word, in order and with their counts |
| HashtagTags.SeparatorsOnlyYieldNoTags | src/components/HashtagGenerator.tsx:72-73 | a keyword of only spaces and commas gives no tags |
| HashtagTags.KeywordTagsExample | src/components/HashtagGenerator.tsx:69-75 | "Go, Rust!" gives exactly #rust |
| HashtagTags.PunctuationWordGivesBareHash | src/components/HashtagGenerator.tsx:73-74 | a word of three punctuation marks passes the length test and becomes a bare `#` |
| HashtagTags.AstralWordIsLong | src/components/HashtagGenerator.tsx:73-74 | a word of two characters, one outside the Basic Multilingual Plane, is three code units long and so gives a tag |
| HashtagTags.Candidates | src/components/HashtagGenerator.tsx:67-77 | no duplicates; a tag is a candidate exactly when it is a keyword tag, a tag of the category, or a trending tag with trending shown |
| HashtagTags.StartupOfferedOnce | src/components/HashtagGenerator.tsx:22-77 | #startup, listed twice for business, is offered exactly once |
| HashtagTags.GrowthOfferedOnce | src/components/HashtagGenerator.tsx:17-77 | #growth, both a lifestyle tag and a trending tag, is offered exactly once |
| HashtagTags.PickedTags | src/components/HashtagGenerator.tsx:78-80 | whatever the shuffle, the pick has no duplicates, only candidates, and min(tagCount, number of candidates) tags |
| HashtagTags.EveryOrderCanBePicked | src/components/HashtagGenerator.tsx:78-80 | every ordering of the candidates, cut to tagCount, is a possible outcome |
| HashtagTags.PushSaved | src/components/HashtagGenerator.tsx:95 | the new set comes first, followed by the previous sets in order, cut to ten |
| HashtagTags.RemoveById | src/components/HashtagGenerator.tsx:99 | no remaining set has the id |
| HashtagTags.RemoveByIdKeepsOthers | src/components/HashtagGenerator.tsx:99 | the rest keep their order and every other set is kept as often as it was there |
| HashtagComponent.HashtagGenerator.constructor | src/components/HashtagGenerator.tsx:51-60 | empty keyword, "technology", no tags, the stored sets, trending off, ten tags |
| HashtagComponent.HashtagGenerator.GenerateHashtags | src/components/HashtagGenerator.tsx:66-83 | the new tags are a shuffled prefix of the candidates with no duplicates, only candidates and the right count; no other field changes |
| HashtagComponent.HashtagGenerator.SaveHashtagSet | src/components/HashtagGenerator.tsx:85-96 | with no tags nothing changes; otherwise the new set (current tags, category, the id from the first clock reading, the timestamp from the second) comes first, the rest follow in order, at most ten are kept |
| HashtagComponent.HashtagGenerator.DeleteSavedSet | src/components/HashtagGenerator.tsx:98-100 | every set with the id goes, every other set stays, order is kept, and the size bound is preserved |
| HashtagComponent.HashtagGenerator.LoadSavedSet | src/components/HashtagGenerator.tsx:102-105 | the tags and category are taken from the set and nothing else changes |
| Seqs.Filter | src/components/HashtagGenerator.tsx:73 | `filter`: never longer, and every element passes the test |
| Seqs.FilterMembership | src/components/HashtagGenerator.tsx:73 | an element survives exactly when it occurs and passes the test |
| Seqs.FilterIsSubsequence | src/components/HashtagGenerator.tsx:99 | filtering keeps the order |
| Seqs.FilterCounts | src/components/HashtagGenerator.tsx:99 | a kept value keeps its multiplicity; every other value is gone |
| Seqs.FilterIdempotent | server/index.js:37 | filtering twice is filtering once |
| Seqs.FilterConcat | src/components/HashtagGenerator.tsx:73 | filtering distributes over concatenation |
| Seqs.FilterAbsorbs | src/components/HashtagGenerator.tsx:72-73 | a weaker filter first changes nothing |
| Seqs.Dedup | src/components/HashtagGenerator.tsx:77 | `[...new Set(s)]`: no duplicates, the same members, never longer |
| Seqs.DedupKeepsFirstOccurrenceOrder | src/components/HashtagGenerator.tsx:77 | values come out in the order of their first occurrence |
| Seqs.Take | src/components/HashtagGenerator.tsx:80 | `slice(0, n)`: the prefix of length min(n, length) |
| Seqs.Permute | src/components/HashtagGenerator.tsx:79 | an outcome of the random sort has the input's length |
| Seqs.PermuteIsReordering | src/components/HashtagGenerator.tsx:79 | every outcome is a permutation of the input |
| Seqs.PermuteReachesAll | src/components/HashtagGenerator.tsx:79 | every permutation of the input is a possible outcome |
| Seqs.PermutationKeepsNoDuplicates | src/components/HashtagGenerator.tsx:77-79 | reordering keeps a list free of duplicates |
| Text.LowerAscii | src/components/HashtagGenerator.tsx:71 | `toLowerCase` on ASCII: same length, upper-case letters lowered, everything else kept |
| Text.Utf16Length | src/components/HashtagGenerator.tsx:73 | the JavaScript `length`: one or two code units per character |
| Text.Pieces | src/components/HashtagGenerator.tsx:72 | a split yields at least one piece |
| Text.PiecesSplitAt | src/components/HashtagGenerator.tsx:72 | a split at the first separator gives the text before it, then the split of the rest |
| Text.NatToString | src/components/HashtagGenerator.tsx:89 | `toString` of a whole number: decimal digits, no leading zero, one digit exactly below ten |
| Text.DigitsValueOfNatToString | src/components/HashtagGenerator.tsx:89 | the digits read back give the number |
| Text.NatToStringInjective | src/components/HashtagGenerator.tsx:89 | different timestamps give different ids |

## Left out

- I/O of every kind is not modelled:
  - the extractor processes (`youtube-dl-exec`, `ytdl-core`);
  - network transfer, backpressure and client disconnects;
  - `console.error` logging;
  - local storage reads and writes, the clipboard and the copied-flag timer.

  The extractors are function parameters. The two clock readings are the `idNow` and `stampNow` parameters of `SaveHashtagSet`. The stored set list is the constructor's parameter.
- `UrlValidation.IsYouTubeUrl`: the gate takes the URL parser as a parameter. The lemmas instantiate it with `UrlParser.SimpleHostname`.
- `UrlParser.SimpleHostname` does not model these steps of the WHATWG parser:
  - percent-decoding of hosts;
  - IDNA, including `xn--` labels;
  - IPv4 hosts written as numbers, and IPv6 literals;
  - lower-casing outside ASCII;
  - percent-encoding of opaque hosts.

  On input that needs one of them, its answer may differ from the standard's. The lemmas that give the parser's result for a host (`UrlParser.SimpleHostnameOf` and those built on it) require `IsPlainHost`: ASCII letters, digits, hyphens and dots, no `--`, and a last label that starts with a letter. None of the missing steps applies to such a host.
- `YouTubeService.GetVideoInfo` and `YouTubeService.DownloadVideo` take the URL predicate as the parameter `isValid`. The two server modules import `isYouTubeUrl` from server/utils/validation.ts, but that file exports only `validateUrl`, a wrapper around `ytdl.validateURL`. The predicate is a parameter because the `ytdl-core` check it wraps is not visible.
- `Duration.FormatDuration`: durations are whole seconds. A fractional duration from the extractor would render with a fractional seconds field; that case is not modelled.
- Request body fields are modelled as present-or-absent strings. JSON values of another type (numbers, arrays, `null`) are not modelled.
- `YouTubeController.DownloadVideo`: the download result is either a stream or an object that cannot be piped. If it cannot be piped, the call to `pipe` throws and the handler answers 500. An 'error' event on a stream has no listener in this handler. The model leaves such a response unfinished; the crash of the Node process that follows is not modelled.
- Express details outside the handlers are not modelled:
  - header names: Node also checks them, but the handlers use only fixed, legal names;
  - case-insensitive header names;
  - the error-handler middleware (server/index.js:64-67), which no modelled route reaches;
  - the CORS and body-parser middleware.
- `Http.WithJsonType`: Express parses an existing Content-Type and writes it back with its charset replaced. The model appends the charset, which agrees for the parameter-free media types the handlers set. `res.send` also sets a Content-Length header and a weak ETag header. Neither is modelled, so the promise that no other header changes covers only the modelled headers.
- Rate limiting (server/middleware/rateLimit.ts) delegates to a library with no visible counting logic and is not part of this model.
- `Text.LowerAscii`: `toLowerCase` is modelled on ASCII letters only. Characters outside ASCII are kept unchanged, whereas JavaScript lowers many of them.
- `Seqs.Permute`: the sort with a random comparator is over-approximated as an arbitrary permutation. The model does not claim any distribution over the outcomes.
- `HashtagComponent.HashtagGenerator.GenerateHashtags`: a category outside the table makes the source throw. The model leaves every field unchanged in that case and does not model the exception itself.
- The JSX rendering of the component and the `copyToClipboard` handler are not modelled.
