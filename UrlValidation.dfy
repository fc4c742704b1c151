/**
 * The client-side URL gate (src/utils/validation.ts): an exact host allow-list
 * test on the parsed URL, and the ordered validation message shown to the user.
 *
 * The WHATWG URL parser (`new URL(url).hostname`, throwing on a string that
 * does not parse) is a parameter of type HostnameParser. The lemmas at the
 * end instantiate it with UrlParser.SimpleHostname to state what the gate
 * does on concrete URLs.
 */
module UrlValidation {
  import opened Wrappers
  import opened Text
  import opened UrlParser

  /** `new URL(url).hostname`, or None when the URL constructor throws. */
  type HostnameParser = string -> Option<string>

  /** The four host names the gate accepts. */
  const ALLOWED_HOSTS: set<string> := {"youtube.com", "www.youtube.com", "youtu.be", "m.youtube.com"}

  const EMPTY_URL_MESSAGE := "Please enter a URL"
  const SCHEME_MESSAGE := "Please enter a valid URL starting with http:// or https://"
  const HOST_MESSAGE := "Please enter a valid YouTube URL"

  /**
   * `isYouTubeUrl`: the parsed host name equals one of the four allowed names
   * exactly; a string the parser rejects is not a YouTube URL (the exception
   * is caught).
   */
  predicate IsYouTubeUrl(hostname: HostnameParser, url: string)
    ensures IsYouTubeUrl(hostname, url) <==> hostname(url).Some? && hostname(url).value in ALLOWED_HOSTS
  {
    match hostname(url)
    case None => false
    case Some(host) =>
      host == "youtube.com" || host == "www.youtube.com" || host == "youtu.be" || host == "m.youtube.com"
  }

  /** The result depends on the host name alone. */
  lemma OnlyHostnameMatters(hostname: HostnameParser, u: string, v: string)
    requires hostname(u) == hostname(v)
    ensures IsYouTubeUrl(hostname, u) == IsYouTubeUrl(hostname, v)
  {
  }

  predicate HasHttpScheme(url: string)
  {
    StartsWith(url, "http://") || StartsWith(url, "https://")
  }

  /**
   * `getErrorMessage`: the message of the first failing check, in the order
   * empty, scheme prefix, host; the empty string when all pass.
   */
  function ErrorMessage(hostname: HostnameParser, url: string): (message: string)
    ensures message == "" <==> url != "" && HasHttpScheme(url) && IsYouTubeUrl(hostname, url)
    ensures message in {"", EMPTY_URL_MESSAGE, SCHEME_MESSAGE, HOST_MESSAGE}
  {
    if url == "" then EMPTY_URL_MESSAGE
    else if !HasHttpScheme(url) then SCHEME_MESSAGE
    else if !IsYouTubeUrl(hostname, url) then HOST_MESSAGE
    else ""
  }

  /** Each message names the first check that fails. */
  lemma ErrorMessageOrder(hostname: HostnameParser, url: string)
    ensures url == "" ==> ErrorMessage(hostname, url) == EMPTY_URL_MESSAGE
    ensures url != "" && !HasHttpScheme(url) ==> ErrorMessage(hostname, url) == SCHEME_MESSAGE
    ensures url != "" && HasHttpScheme(url) && !IsYouTubeUrl(hostname, url)
            ==> ErrorMessage(hostname, url) == HOST_MESSAGE
  {
  }

  /** Hence the gate's verdict on such a URL is the allow-list test on the host alone, given an in-range port. */
  lemma GateIgnoresSchemePortAndPath(scheme: string, host: string, port: string, tail: string)
    requires scheme != [] && IsLetterText(scheme)
    requires LowerAscii(scheme) != "file"
    requires IsPlainHost(host)
    requires IsPortText(port)
    requires tail == [] || tail[0] in "/?#"
    ensures IsYouTubeUrl(SimpleHostname, scheme + "://" + host + port + tail) <==>
      IsPortPart(port) && PlainHostname(scheme, host) in ALLOWED_HOSTS
  {
    SimpleHostnameOf(scheme, host, port, tail);
  }

  lemma AllowedHostsArePlain(host: string)
    requires host in ALLOWED_HOSTS
    ensures IsPlainHost(host) && HasNoUpper(host)
  {
    if host == "youtube.com" {
      YouTubeComIsPlain();
    } else if host == "www.youtube.com" {
      WwwYouTubeComIsPlain();
    } else if host == "youtu.be" {
      YoutuBeIsPlain();
    } else {
      MobileYouTubeComIsPlain();
    }
  }

  lemma YouTubeComIsPlain()
    ensures IsPlainHost("youtube.com") && HasNoUpper("youtube.com")
  {
    LowerPlainHost("youtube.com", 8);
  }

  lemma WwwYouTubeComIsPlain()
    ensures IsPlainHost("www.youtube.com") && HasNoUpper("www.youtube.com")
  {
    LowerPlainHost("www.youtube.com", 12);
  }

  lemma YoutuBeIsPlain()
    ensures IsPlainHost("youtu.be") && HasNoUpper("youtu.be")
  {
    LowerPlainHost("youtu.be", 6);
  }

  lemma MobileYouTubeComIsPlain()
    ensures IsPlainHost("m.youtube.com") && HasNoUpper("m.youtube.com")
  {
    LowerPlainHost("m.youtube.com", 10);
  }

  /** A lower-case name of letters, digits and single dots whose last label starts at `k`. */
  lemma LowerPlainHost(host: string, k: nat)
    requires forall i :: 0 <= i < |host| ==> 'a' <= host[i] <= 'z' || host[i] == '.'
    requires k < |host| && host[k] != '.' && (k == 0 || host[k - 1] == '.') && '.' !in host[k..]
    ensures IsPlainHost(host) && HasNoUpper(host)
  {
    assert IsAsciiLetter(host[k]);
  }

  /** An https URL on an allowed host passes every check, whatever its in-range port, path or query. */
  lemma HttpsOnAllowedHostAccepted(host: string, port: string, tail: string)
    requires host in ALLOWED_HOSTS
    requires IsPortPart(port)
    requires tail == [] || tail[0] in "/?#"
    ensures ErrorMessage(SimpleHostname, "https" + "://" + host + port + tail) == ""
  {
    AllowedHostPasses(host, port, tail);
    HttpsScheme(host, port, tail);
    PassingUrlHasNoMessage(SimpleHostname, "https" + "://" + host + port + tail);
  }

  /** A port above 65535 makes the parser fail, so even an allowed host gets the host message. */
  lemma PortOutOfRangeRejected(host: string, port: string, tail: string)
    requires host in ALLOWED_HOSTS
    requires IsPortText(port) && !IsPortPart(port)
    requires tail == [] || tail[0] in "/?#"
    ensures SimpleHostname("https" + "://" + host + port + tail) == None
    ensures ErrorMessage(SimpleHostname, "https" + "://" + host + port + tail) == HOST_MESSAGE
  {
    AllowedHostsArePlain(host);
    HttpsNotFile();
    SimpleHostnameOf("https", host, port, tail);
    HttpsScheme(host, port, tail);
  }

  lemma HighPortExample()
    ensures ErrorMessage(SimpleHostname, "https" + "://" + "youtube.com" + ":70000" + "") == HOST_MESSAGE
  {
    assert ":70000"[1..] == "70000";
    assert DigitsValue("70000") == 70000 by {
      assert "70000"[..4] == "7000" && "7000"[..3] == "700" && "700"[..2] == "70" && "70"[..1] == "7";
    }
    PortOutOfRangeRejected("youtube.com", ":70000", "");
  }

  lemma HttpsNotFile()
    ensures LowerAscii("https") == "https" && IsSpecial("https") && IsLetterText("https")
  {
    LowerAsciiOfLower("https");
  }

  lemma PassingUrlHasNoMessage(hostname: HostnameParser, url: string)
    requires HasHttpScheme(url) && IsYouTubeUrl(hostname, url)
    ensures ErrorMessage(hostname, url) == ""
  {
  }

  lemma AllowedHostPasses(host: string, port: string, tail: string)
    requires host in ALLOWED_HOSTS
    requires IsPortPart(port)
    requires tail == [] || tail[0] in "/?#"
    ensures IsYouTubeUrl(SimpleHostname, "https" + "://" + host + port + tail)
  {
    AllowedHostsArePlain(host);
    HttpsNotFile();
    SimpleHostnameOfLower("https", host, port, tail);
  }

  lemma HttpsScheme(host: string, port: string, tail: string)
    ensures HasHttpScheme("https" + "://" + host + port + tail)
  {
    assert ("https" + "://" + host + port + tail)[..8] == "https" + "://";
  }

  /**
   * A tab anywhere in the host name and a space at the end are dropped before
   * parsing: an allowed host written that way still passes.
   */
  lemma TabAndTrailingSpaceIgnored(front: string, back: string)
    requires front != [] && back != [] && front + back in ALLOWED_HOSTS
    ensures SimpleHostname("https://" + front + "\t" + back + " ") == Some(front + back)
    ensures ErrorMessage(SimpleHostname, "https://" + front + "\t" + back + " ") == ""
  {
    TabbedHostname(front, back);
    TabbedScheme(front, back);
    PassingUrlHasNoMessage(SimpleHostname, "https://" + front + "\t" + back + " ");
  }

  lemma TabbedHostname(front: string, back: string)
    requires front != [] && back != [] && front + back in ALLOWED_HOSTS
    ensures SimpleHostname("https://" + front + "\t" + back + " ") == Some(front + back)
  {
    var host := front + back;
    AllowedHostsArePlain(host);
    CleanedHttpsUrl(front, back);
    HttpsNotFile();
    ParseHostOf("https", host, "", "");
    PlainHostnameOfLower("https", host);
  }

  lemma TabbedScheme(front: string, back: string)
    ensures HasHttpScheme("https://" + front + "\t" + back + " ")
  {
    assert ("https://" + front + "\t" + back + " ")[..8] == "https://";
  }

  lemma CleanedHttpsUrl(front: string, back: string)
    requires front != [] && back != [] && IsPlainHost(front + back)
    ensures Preprocess("https://" + front + "\t" + back + " ") == "https" + "://" + (front + back) + "" + ""
  {
    PlainHostIsClean(front + back);
    CleanSplit(front, back);
    CleanConcat("https://", front);
    PreprocessDropsTab("https://" + front, back);
    HttpsJoin(front, back);
  }

  lemma HttpsJoin(front: string, back: string)
    ensures "https://" + front + back == "https" + "://" + (front + back) + "" + ""
  {
  }

  /** Equality is exact: a lower-case plain host that is not on the list fails, whatever the scheme and port. */
  lemma UnlistedHostRejected(scheme: string, host: string, port: string, tail: string)
    requires scheme != [] && IsLetterText(scheme)
    requires LowerAscii(scheme) != "file"
    requires IsPlainHost(host) && HasNoUpper(host)
    requires host !in ALLOWED_HOSTS
    requires IsPortText(port)
    requires tail == [] || tail[0] in "/?#"
    ensures !IsYouTubeUrl(SimpleHostname, scheme + "://" + host + port + tail)
  {
    GateIgnoresSchemePortAndPath(scheme, host, port, tail);
    PlainHostnameOfLower(scheme, host);
  }

  /** A sibling sub-domain does not pass. */
  lemma SubdomainRejected(scheme: string, port: string, tail: string)
    requires scheme != [] && IsLetterText(scheme)
    requires LowerAscii(scheme) != "file"
    requires IsPortText(port)
    requires tail == [] || tail[0] in "/?#"
    ensures !IsYouTubeUrl(SimpleHostname, scheme + "://" + "music.youtube.com" + port + tail)
  {
    MusicHostUnlisted();
    UnlistedHostRejected(scheme, "music.youtube.com", port, tail);
  }

  lemma MusicHostUnlisted()
    ensures var host := "music.youtube.com";
      IsPlainHost(host) && HasNoUpper(host) && host !in ALLOWED_HOSTS
  {
    LowerPlainHost("music.youtube.com", 14);
  }

  /** A longer name that starts with an allowed one does not pass. */
  lemma LongerHostRejected(scheme: string, port: string, tail: string)
    requires scheme != [] && IsLetterText(scheme)
    requires LowerAscii(scheme) != "file"
    requires IsPortText(port)
    requires tail == [] || tail[0] in "/?#"
    ensures !IsYouTubeUrl(SimpleHostname, scheme + "://" + "youtube.com.evil.com" + port + tail)
  {
    LongerHostUnlisted();
    UnlistedHostRejected(scheme, "youtube.com.evil.com", port, tail);
  }

  lemma LongerHostUnlisted()
    ensures var host := "youtube.com.evil.com";
      IsPlainHost(host) && HasNoUpper(host) && host !in ALLOWED_HOSTS
  {
    LowerPlainHost("youtube.com.evil.com", 17);
  }

  /** An allowed host behind another scheme passes the host test ... */
  lemma OtherSchemeOnAllowedHost(port: string, tail: string)
    requires IsPortPart(port)
    requires tail == [] || tail[0] in "/?#"
    ensures IsYouTubeUrl(SimpleHostname, "ftp" + "://" + "youtube.com" + port + tail)
  {
    AllowedHostsArePlain("youtube.com");
    LowerAsciiOfLower("ftp");
    SimpleHostnameOfLower("ftp", "youtube.com", port, tail);
  }

  /** ... yet gets the scheme message: the scheme check comes first. */
  lemma SchemeCheckedBeforeHost(port: string, tail: string)
    requires IsPortText(port)
    requires tail == [] || tail[0] in "/?#"
    ensures ErrorMessage(SimpleHostname, "ftp" + "://" + "youtube.com" + port + tail) == SCHEME_MESSAGE
  {
    var url := "ftp" + "://" + "youtube.com" + port + tail;
    assert !HasHttpScheme(url) by {
      assert url[0] == 'f';
      assert |url| >= 7 && url[..7][0] == 'f';
      assert !StartsWith(url, "http://");
      assert !StartsWith(url, "https://");
    }
  }

  /** A string without a colon has no scheme and does not parse, so it is never a YouTube URL. */
  lemma NoSchemeRejected(url: string)
    requires forall i :: 0 <= i < |url| ==> url[i] != ':'
    ensures SimpleHostname(url) == None
    ensures !IsYouTubeUrl(SimpleHostname, url)
  {
    var input := Preprocess(url);
    PreprocessKeepsOut(url, ':');
    var scheme := TakeWhile(input, IsSchemeChar);
    assert |scheme| < |input| ==> input[|scheme|] != ':';
  }
}
