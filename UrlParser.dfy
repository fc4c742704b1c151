/**
 * The part of the WHATWG URL Standard's basic URL parser (no base URL) that
 * decides `new URL(url).hostname`: input cleaning, the scheme, the authority
 * of special and non-special schemes, user information, the port range, the
 * forbidden code points of hosts and domains, and the host of `file:` URLs.
 */
module UrlParser {
  import opened Wrappers
  import opened Text

  predicate StartsWith(s: string, prefix: string)
  {
    |prefix| <= |s| && s[..|prefix|] == prefix
  }

  predicate IsAsciiLetter(c: char)
  {
    ('a' <= c <= 'z') || ('A' <= c <= 'Z')
  }

  predicate IsSchemeChar(c: char)
  {
    IsAsciiLetter(c) || IsDigit(c) || c == '+' || c == '-' || c == '.'
  }

  /** A C0 control or a space: trimmed from both ends of the input. */
  predicate IsC0OrSpace(c: char)
  {
    c <= ' '
  }

  /** Not an ASCII tab or newline, which are removed wherever they stand. */
  predicate NotTabOrNewline(c: char)
  {
    c != '\t' && c != '\n' && c != '\r'
  }

  /** The schemes the URL Standard calls special; their hosts are domains. */
  predicate IsSpecial(scheme: string)
  {
    LowerAscii(scheme) in {"ftp", "file", "http", "https", "ws", "wss"}
  }

  predicate IsSlash(c: char)
  {
    c == '/' || c == '\\'
  }

  predicate NotAuthorityEnd(c: char)
  {
    c != '/' && c != '?' && c != '#'
  }

  /** Under a special scheme a backslash ends the authority too. */
  predicate NotSpecialAuthorityEnd(c: char)
  {
    NotAuthorityEnd(c) && c != '\\'
  }

  predicate NotColon(c: char)
  {
    c != ':'
  }

  /** A forbidden host code point: an opaque host holding one does not parse. */
  predicate IsForbiddenHostChar(c: char)
  {
    c == '\U{0}' || c == '\t' || c == '\n' || c == '\r' || c == ' ' || c in "#/:<>?@[\\]^|"
  }

  /** A forbidden domain code point: a domain holding one does not parse. */
  predicate IsForbiddenDomainChar(c: char)
  {
    IsForbiddenHostChar(c) || c <= '\U{1F}' || c == '%' || c == '\U{7F}'
  }

  /** Text an opaque host may consist of. */
  predicate IsOpaqueHostText(s: string)
  {
    forall i :: 0 <= i < |s| ==> !IsForbiddenHostChar(s[i])
  }

  /** Text a domain may consist of. */
  predicate IsDomainText(s: string)
  {
    forall i :: 0 <= i < |s| ==> !IsForbiddenDomainChar(s[i])
  }

  predicate HasNoUpper(s: string)
  {
    forall i :: 0 <= i < |s| ==> !('A' <= s[i] <= 'Z')
  }

  predicate IsLetterText(s: string)
  {
    forall i :: 0 <= i < |s| ==> IsAsciiLetter(s[i])
  }

  /** Text with no C0 control or space, which cleaning leaves alone. */
  predicate NoC0OrSpace(s: string)
  {
    forall i :: 0 <= i < |s| ==> !IsC0OrSpace(s[i])
  }

  /** Lower-casing a domain keeps it a domain and leaves no upper-case letter. */
  lemma LowerDomain(s: string)
    requires IsDomainText(s)
    ensures IsDomainText(LowerAscii(s)) && IsOpaqueHostText(LowerAscii(s)) && HasNoUpper(LowerAscii(s))
  {
  }

  lemma DomainIsOpaque(s: string)
    requires IsDomainText(s)
    ensures IsOpaqueHostText(s)
  {
  }

  /** The longest prefix of `s` whose characters all satisfy `p`. */
  function TakeWhile(s: string, p: char -> bool): (r: string)
    ensures |r| <= |s| && r == s[..|r|]
    ensures forall i :: 0 <= i < |r| ==> p(r[i])
    ensures |r| < |s| ==> !p(s[|r|])
  {
    if s == [] || !p(s[0]) then [] else [s[0]] + TakeWhile(s[1..], p)
  }

  /** `s` without its leading C0 controls and spaces. */
  function TrimStart(s: string): (r: string)
    ensures |r| <= |s| && r == s[|s| - |r|..]
    ensures forall i :: 0 <= i < |s| - |r| ==> IsC0OrSpace(s[i])
    ensures r == [] || !IsC0OrSpace(r[0])
  {
    if s != [] && IsC0OrSpace(s[0]) then TrimStart(s[1..]) else s
  }

  /** `s` without its trailing C0 controls and spaces. */
  function TrimEnd(s: string): (r: string)
    ensures |r| <= |s| && r == s[..|r|]
    ensures forall i :: |r| <= i < |s| ==> IsC0OrSpace(s[i])
    ensures r == [] || !IsC0OrSpace(r[|r| - 1])
  {
    if s != [] && IsC0OrSpace(s[|s| - 1]) then TrimEnd(s[..|s| - 1]) else s
  }

  /** `s` without its ASCII tabs and newlines, the other characters in order. */
  function RemoveTabsAndNewlines(s: string): (r: string)
    ensures |r| <= |s|
    ensures forall i :: 0 <= i < |r| ==> NotTabOrNewline(r[i])
  {
    if s == [] then []
    else (if NotTabOrNewline(s[0]) then [s[0]] else []) + RemoveTabsAndNewlines(s[1..])
  }

  /**
   * The input as the parser reads it: leading and trailing C0 controls and
   * spaces are trimmed, then every ASCII tab and newline is removed.
   */
  function Preprocess(url: string): (r: string)
    ensures forall i :: 0 <= i < |r| ==> NotTabOrNewline(r[i])
    ensures |r| <= |url|
  {
    RemoveTabsAndNewlines(TrimEnd(TrimStart(url)))
  }

  /** The part of an authority after its last `@`, that is, without the user information. */
  function WithoutUserinfo(authority: string): (r: string)
    ensures '@' !in r
    ensures |r| <= |authority| && r == authority[|authority| - |r|..]
    ensures '@' !in authority ==> r == authority
    ensures '@' in authority ==> |r| < |authority| && authority[|authority| - |r| - 1] == '@'
    decreases |authority|
  {
    if '@' !in authority then authority else WithoutUserinfo(authority[1..])
  }

  /** A port part: empty, or a colon followed by digits; the digits, if any, denote at most 65535. */
  predicate IsPortPart(port: string)
  {
    port == [] || (port[0] == ':' && AllDigits(port[1..]) && (|port| == 1 || DigitsValue(port[1..]) <= 65535))
  }

  /**
   * The host name from an authority `[user@]host[:port]`. The port must be in
   * range. A domain (special scheme) is non-empty, free of forbidden domain
   * code points, and lower-cased. An opaque host keeps its case, is free of
   * forbidden host code points, and may be empty only with neither user
   * information nor port.
   */
  function HostOfAuthority(authority: string, special: bool): (r: Option<string>)
    ensures r.Some? ==> IsOpaqueHostText(r.value)
    ensures r.Some? && special ==> r.value != [] && IsDomainText(r.value) && HasNoUpper(r.value)
  {
    var hostAndPort := WithoutUserinfo(authority);
    var host := TakeWhile(hostAndPort, NotColon);
    var port := hostAndPort[|host|..];
    if !IsPortPart(port) then None
    else if host == [] then (if special || port != [] || '@' in authority then None else Some([]))
    else if special then
      (if !IsDomainText(host) then None else LowerDomain(host); Some(LowerAscii(host)))
    else if !IsOpaqueHostText(host) then None
    else Some(host)
  }

  /**
   * The host name of a `file:` URL, from what follows the colon: with two
   * slashes, the text up to the next delimiter, where `localhost` and a
   * Windows drive letter give the empty host; without them, the empty host.
   */
  function FileHost(rest: string): (r: Option<string>)
    ensures r.Some? ==> IsDomainText(r.value) && IsOpaqueHostText(r.value)
  {
    if |rest| >= 2 && IsSlash(rest[0]) && IsSlash(rest[1]) then
      var host := TakeWhile(rest[2..], NotSpecialAuthorityEnd);
      if host == [] || (|host| == 2 && IsAsciiLetter(host[0]) && (host[1] == ':' || host[1] == '|')) then Some([])
      else if !IsDomainText(host) then None
      else if LowerAscii(host) == "localhost" then Some([])
      else LowerDomain(host); Some(LowerAscii(host))
    else Some([])
  }

  /** The scheme the parser reads, before lower-casing. */
  function SchemeOf(url: string): string
  {
    TakeWhile(Preprocess(url), IsSchemeChar)
  }

  /** The authority under a special scheme: any run of slashes and backslashes is skipped. */
  function SpecialAuthority(afterColon: string): string
  {
    var afterSlashes := afterColon[|TakeWhile(afterColon, IsSlash)|..];
    TakeWhile(afterSlashes, NotSpecialAuthorityEnd)
  }

  /**
   * The host name from what follows `scheme:`. Any other scheme than a
   * special one has an authority only after `//`, and otherwise has the empty
   * host name.
   */
  function HostAfterScheme(scheme: string, afterColon: string): (r: Option<string>)
    ensures r.Some? ==> IsOpaqueHostText(r.value)
    ensures r.Some? && IsSpecial(scheme) && LowerAscii(scheme) != "file" ==> r.value != [] && HasNoUpper(r.value)
  {
    if LowerAscii(scheme) == "file" then FileHost(afterColon)
    else if IsSpecial(scheme) then HostOfAuthority(SpecialAuthority(afterColon), true)
    else if StartsWith(afterColon, "//") then HostOfAuthority(TakeWhile(afterColon[2..], NotAuthorityEnd), false)
    else Some([])
  }

  /** The host name for a preprocessed input, which must start with a scheme and a colon. */
  function ParseHost(input: string): (r: Option<string>)
  {
    var scheme := TakeWhile(input, IsSchemeChar);
    var rest := input[|scheme|..];
    if scheme == [] || !IsAsciiLetter(scheme[0]) || rest == [] || rest[0] != ':' then None
    else HostAfterScheme(scheme, rest[1..])
  }

  /**
   * `new URL(url).hostname` for the cases modelled here. A special scheme
   * other than `file` always yields a non-empty, lower-case domain; any host
   * name is free of forbidden host code points.
   */
  function SimpleHostname(url: string): (r: Option<string>)
    ensures r.Some? ==> IsOpaqueHostText(r.value)
    ensures r.Some? && IsSpecial(SchemeOf(url)) && LowerAscii(SchemeOf(url)) != "file" ==> r.value != [] && HasNoUpper(r.value)
  {
    ParseHost(Preprocess(url))
  }

  lemma {:induction false} TakeWhileOfConcat(a: string, b: string, p: char -> bool)
    requires forall i :: 0 <= i < |a| ==> p(a[i])
    requires b == [] || !p(b[0])
    ensures TakeWhile(a + b, p) == a
  {
    if a != [] {
      assert (a + b)[1..] == a[1..] + b;
      TakeWhileOfConcat(a[1..], b, p);
      assert [a[0]] + a[1..] == a;
    } else {
      assert a + b == b;
    }
  }

  lemma {:induction false} TrimEndOfConcat(a: string, b: string)
    requires a != [] && !IsC0OrSpace(a[|a| - 1])
    ensures TrimEnd(a + b) == a + TrimEnd(b)
    decreases |b|
  {
    if b == [] {
      assert a + b == a;
    } else if IsC0OrSpace(b[|b| - 1]) {
      assert (a + b)[..|a + b| - 1] == a + b[..|b| - 1];
      TrimEndOfConcat(a, b[..|b| - 1]);
    }
  }

  /** Removing tabs and newlines works piece by piece. */
  lemma {:induction false} RemoveTabsOfConcat(a: string, b: string)
    ensures RemoveTabsAndNewlines(a + b) == RemoveTabsAndNewlines(a) + RemoveTabsAndNewlines(b)
  {
    if a == [] {
      assert a + b == b;
    } else {
      assert (a + b)[1..] == a[1..] + b;
      RemoveTabsOfConcat(a[1..], b);
    }
  }

  lemma {:induction false} RemoveTabsOfClean(s: string)
    requires forall i :: 0 <= i < |s| ==> NotTabOrNewline(s[i])
    ensures RemoveTabsAndNewlines(s) == s
  {
    if s != [] {
      RemoveTabsOfClean(s[1..]);
      assert [s[0]] + s[1..] == s;
    }
  }

  lemma {:induction false} RemoveTabsKeepsOut(s: string, c: char)
    requires c !in s
    ensures c !in RemoveTabsAndNewlines(s)
  {
    if s != [] {
      assert c !in s[1..] by {
        forall i | 0 <= i < |s[1..]| ensures s[1..][i] != c {
          assert s[1..][i] == s[i + 1];
        }
      }
      RemoveTabsKeepsOut(s[1..], c);
    }
  }

  /** A character absent from the input is absent from what the parser reads. */
  lemma PreprocessKeepsOut(url: string, c: char)
    requires c !in url
    ensures c !in Preprocess(url)
  {
    var trimmed := TrimEnd(TrimStart(url));
    assert c !in trimmed by {
      var start := TrimStart(url);
      forall i | 0 <= i < |trimmed| ensures trimmed[i] != c {
        assert trimmed[i] == start[i] == url[|url| - |start| + i];
      }
    }
    RemoveTabsKeepsOut(trimmed, c);
  }

  lemma TrimStartOfClean(url: string)
    requires url != [] && !IsC0OrSpace(url[0])
    ensures TrimStart(url) == url
  {
  }

  lemma TrimEndDropsSpace(s: string)
    requires s != [] && !IsC0OrSpace(s[|s| - 1])
    ensures TrimEnd(s + " ") == s
  {
    TrimEndOfConcat(s, " ");
    assert TrimEnd(" ") == [] by {
      assert " "[..0] == [];
    }
    assert s + [] == s;
  }

  lemma RemoveTabsAfterClean(prefix: string, rest: string)
    requires NoC0OrSpace(prefix)
    ensures RemoveTabsAndNewlines(prefix + rest) == prefix + RemoveTabsAndNewlines(rest)
  {
    RemoveTabsOfConcat(prefix, rest);
    RemoveTabsOfClean(prefix);
  }

  lemma RemoveTabsDropsTab(s: string)
    requires NoC0OrSpace(s)
    ensures RemoveTabsAndNewlines("\t" + s) == s
  {
    assert ("\t" + s)[1..] == s;
    RemoveTabsOfClean(s);
  }

  lemma CleanTailStart(tail: string)
    requires tail != [] && !IsC0OrSpace(tail[0])
    ensures var t := RemoveTabsAndNewlines(TrimEnd(tail)); t != [] && t[0] == tail[0]
  {
    var kept := TrimEnd(tail);
    assert kept != [] && kept[0] == tail[0];
    assert RemoveTabsAndNewlines(kept) == [kept[0]] + RemoveTabsAndNewlines(kept[1..]);
  }

  /** Trimming and tab removal leave a clean prefix alone and keep the first character of the rest. */
  lemma PreprocessOf(prefix: string, tail: string) returns (t: string)
    requires prefix != [] && NoC0OrSpace(prefix)
    requires tail == [] || !IsC0OrSpace(tail[0])
    ensures Preprocess(prefix + tail) == prefix + t
    ensures tail == [] ==> t == []
    ensures tail != [] ==> t != [] && t[0] == tail[0]
  {
    t := RemoveTabsAndNewlines(TrimEnd(tail));
    TrimStartOfClean(prefix + tail);
    TrimEndOfConcat(prefix, tail);
    RemoveTabsAfterClean(prefix, TrimEnd(tail));
    if tail != [] {
      CleanTailStart(tail);
    }
  }

  /** A port part as text: empty, or a colon followed by digits of any value. */
  predicate IsPortText(port: string)
  {
    port == [] || (port[0] == ':' && AllDigits(port[1..]))
  }

  predicate IsHostChar(c: char)
  {
    IsAsciiLetter(c) || IsDigit(c) || c == '-' || c == '.'
  }

  /**
   * A host name the URL Standard takes as it is, up to lower-casing: ASCII
   * letters, digits, hyphens and dots, no `--` (so no `xn--` label to
   * decode), and a last label that starts with a letter (so it is not read as
   * an IPv4 number).
   */
  predicate IsPlainHost(host: string)
  {
    && host != []
    && (forall i :: 0 <= i < |host| ==> IsHostChar(host[i]))
    && (forall i :: 0 <= i < |host| - 1 ==> !(host[i] == '-' && host[i + 1] == '-'))
    && exists k :: 0 <= k < |host| && IsAsciiLetter(host[k]) && (k == 0 || host[k - 1] == '.') && '.' !in host[k..]
  }

  /** The host name the parser gives for a plain host under a scheme other than `file`. */
  function PlainHostname(scheme: string, host: string): string
  {
    if IsSpecial(scheme) then LowerAscii(host) else host
  }

  lemma HostAndPortChars(host: string, port: string)
    requires IsPlainHost(host) && IsPortText(port)
    ensures forall i :: 0 <= i < |host + port| ==>
      IsHostChar((host + port)[i]) || (host + port)[i] == ':'
  {
    forall i | 0 <= i < |host + port| ensures IsHostChar((host + port)[i]) || (host + port)[i] == ':' {
      if i > |host| {
        assert (host + port)[i] == port[1..][i - |host| - 1];
      }
    }
  }

  lemma HostOf(host: string, port: string, special: bool)
    requires IsPlainHost(host)
    requires IsPortText(port)
    ensures HostOfAuthority(host + port, special) ==
      if !IsPortPart(port) then None else if special then Some(LowerAscii(host)) else Some(host)
  {
    HostAndPortChars(host, port);
    assert '@' !in host + port by {
      forall i | 0 <= i < |host + port| ensures (host + port)[i] != '@' {}
    }
    assert WithoutUserinfo(host + port) == host + port;
    TakeWhileOfConcat(host, port, NotColon);
    assert (host + port)[|host|..] == port;
    PlainHostIsDomain(host);
  }

  lemma PlainHostIsDomain(host: string)
    requires IsPlainHost(host)
    ensures IsDomainText(host) && IsOpaqueHostText(host)
  {
    forall i | 0 <= i < |host| ensures !IsForbiddenDomainChar(host[i]) {
      assert IsHostChar(host[i]);
    }
  }

  lemma PlainHostIsClean(host: string)
    requires IsPlainHost(host)
    ensures NoC0OrSpace(host)
  {
    forall i | 0 <= i < |host| ensures !IsC0OrSpace(host[i]) {
      assert IsHostChar(host[i]);
    }
  }

  lemma CleanConcat(a: string, b: string)
    requires NoC0OrSpace(a) && NoC0OrSpace(b)
    ensures NoC0OrSpace(a + b)
  {
    forall i | |a| <= i < |a + b| ensures !IsC0OrSpace((a + b)[i]) {
      assert (a + b)[i] == b[i - |a|];
    }
  }

  lemma CleanSplit(a: string, b: string)
    requires NoC0OrSpace(a + b)
    ensures NoC0OrSpace(a) && NoC0OrSpace(b)
  {
    forall i | 0 <= i < |a| ensures !IsC0OrSpace(a[i]) {
      assert a[i] == (a + b)[i];
    }
    forall i | 0 <= i < |b| ensures !IsC0OrSpace(b[i]) {
      assert b[i] == (a + b)[|a| + i];
    }
  }

  lemma AuthorityOf(host: string, port: string, t: string, p: char -> bool)
    requires IsPlainHost(host) && IsPortText(port)
    requires forall c :: IsHostChar(c) || c == ':' ==> p(c)
    requires t == [] || !p(t[0])
    ensures TakeWhile(host + port + t, p) == host + port
  {
    HostAndPortChars(host, port);
    TakeWhileOfConcat(host + port, t, p);
  }

  lemma ParseHostOfScheme(scheme: string, afterColon: string)
    requires scheme != [] && IsLetterText(scheme)
    ensures ParseHost(scheme + ":" + afterColon) == HostAfterScheme(scheme, afterColon)
  {
    var rest := ":" + afterColon;
    assert scheme + ":" + afterColon == scheme + rest;
    TakeWhileOfConcat(scheme, rest, IsSchemeChar);
    assert (scheme + rest)[|scheme|..] == rest;
    assert rest[1..] == afterColon;
  }

  lemma SpecialAuthorityOf(host: string, port: string, t: string)
    requires IsPlainHost(host) && IsPortText(port)
    requires t == [] || t[0] in "/?#"
    ensures SpecialAuthority("//" + (host + port + t)) == host + port
  {
    var after := host + port + t;
    assert after[0] == host[0] && IsHostChar(host[0]);
    TakeWhileOfConcat("//", after, IsSlash);
    assert ("//" + after)[2..] == after;
    AuthorityOf(host, port, t, NotSpecialAuthorityEnd);
  }

  lemma OpaqueAuthorityOf(host: string, port: string, t: string)
    requires IsPlainHost(host) && IsPortText(port)
    requires t == [] || t[0] in "/?#"
    ensures StartsWith("//" + (host + port + t), "//")
    ensures TakeWhile(("//" + (host + port + t))[2..], NotAuthorityEnd) == host + port
  {
    var after := host + port + t;
    assert ("//" + after)[..2] == "//";
    assert ("//" + after)[2..] == after;
    AuthorityOf(host, port, t, NotAuthorityEnd);
  }

  lemma SplitAfterScheme(scheme: string, host: string, port: string, t: string)
    ensures scheme + "://" + host + port + t == scheme + ":" + ("//" + (host + port + t))
  {
  }

  /** On a preprocessed `scheme://host[:port]` followed by a path, query or fragment. */
  lemma ParseHostOf(scheme: string, host: string, port: string, t: string)
    requires scheme != [] && IsLetterText(scheme)
    requires LowerAscii(scheme) != "file"
    requires IsPlainHost(host) && IsPortText(port)
    requires t == [] || t[0] in "/?#"
    ensures ParseHost(scheme + "://" + host + port + t) ==
      if IsPortPart(port) then Some(PlainHostname(scheme, host)) else None
  {
    var afterColon := "//" + (host + port + t);
    SplitAfterScheme(scheme, host, port, t);
    ParseHostOfScheme(scheme, afterColon);
    if IsSpecial(scheme) {
      SpecialAuthorityOf(host, port, t);
      HostOf(host, port, true);
    } else {
      OpaqueAuthorityOf(host, port, t);
      HostOf(host, port, false);
    }
  }

  /**
   * Scheme, port, path, query and fragment do not take part: the parser yields
   * the host (lower-cased under a special scheme) when the port is in range,
   * and fails when it is not.
   */
  lemma SimpleHostnameOf(scheme: string, host: string, port: string, tail: string)
    requires scheme != [] && IsLetterText(scheme)
    requires LowerAscii(scheme) != "file"
    requires IsPlainHost(host)
    requires IsPortText(port)
    requires tail == [] || tail[0] in "/?#"
    ensures SimpleHostname(scheme + "://" + host + port + tail) ==
      if IsPortPart(port) then Some(PlainHostname(scheme, host)) else None
  {
    var t := CleanedUrl(scheme, host, port, tail);
    ParseHostOf(scheme, host, port, t);
  }

  /** Cleaning leaves `scheme://host[:port]` alone, and the rest still starts with a delimiter. */
  lemma CleanedUrl(scheme: string, host: string, port: string, tail: string) returns (t: string)
    requires IsLetterText(scheme)
    requires IsPlainHost(host) && IsPortText(port)
    requires tail == [] || tail[0] in "/?#"
    ensures SimpleHostname(scheme + "://" + host + port + tail) == ParseHost(scheme + "://" + host + port + t)
    ensures t == [] || t[0] in "/?#"
  {
    CleanPrefix(scheme, host, port);
    t := PreprocessOf(scheme + "://" + host + port, tail);
  }

  lemma CleanPrefix(scheme: string, host: string, port: string)
    requires IsLetterText(scheme)
    requires IsPlainHost(host) && IsPortText(port)
    ensures var prefix := scheme + "://" + host + port;
      prefix != [] && NoC0OrSpace(prefix)
  {
    var prefix := scheme + "://" + host + port;
    HostAndPortChars(host, port);
    forall i | 0 <= i < |prefix| ensures !IsC0OrSpace(prefix[i]) {
      if i >= |scheme| + 3 {
        assert prefix[i] == (host + port)[i - |scheme| - 3];
      }
    }
  }

  /** For a host name written in lower case the scheme does not matter either. */
  lemma SimpleHostnameOfLower(scheme: string, host: string, port: string, tail: string)
    requires scheme != [] && IsLetterText(scheme)
    requires LowerAscii(scheme) != "file"
    requires IsPlainHost(host) && HasNoUpper(host)
    requires IsPortPart(port)
    requires tail == [] || tail[0] in "/?#"
    ensures SimpleHostname(scheme + "://" + host + port + tail) == Some(host)
  {
    SimpleHostnameOf(scheme, host, port, tail);
    PlainHostnameOfLower(scheme, host);
  }

  lemma PlainHostnameOfLower(scheme: string, host: string)
    requires HasNoUpper(host)
    ensures PlainHostname(scheme, host) == host
  {
    LowerAsciiOfLower(host);
  }

  /** A tab inside the input and a space at its end are dropped before parsing. */
  lemma PreprocessDropsTab(a: string, b: string)
    requires a != [] && NoC0OrSpace(a)
    requires b != [] && NoC0OrSpace(b)
    ensures Preprocess(a + "\t" + b + " ") == a + b
  {
    var kept := a + "\t" + b;
    assert kept == a + ("\t" + b) && kept[0] == a[0] && kept[|kept| - 1] == b[|b| - 1];
    TrimStartOfClean(kept + " ");
    TrimEndDropsSpace(kept);
    RemoveTabsAfterClean(a, "\t" + b);
    RemoveTabsDropsTab(b);
  }

}
