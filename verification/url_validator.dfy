/** The check applied to MCP server URLs before connecting: private and
    internal hosts are refused in production, and so is any protocol other
    than HTTPS. URL parsing is a parameter: it gives the host name and the
    protocol as the WHATWG URL parser reports them, where an IPv6 host keeps
    its square brackets. */
module UrlValidator {
  import opened Wrappers
  import opened Text

  datatype ParsedUrl = ParsedUrl(hostname: string, protocol: string)

  /** Names refused whatever their form. */
  predicate BlockedHostname(h: string) {
    h == "localhost" || h == "metadata.google.internal" || h == "169.254.169.254"
  }

  /** `^172\.(1[6-9]|2\d|3[01])\.`: the 172.16.0.0/12 block. */
  predicate Private172(h: string) {
    && StartsWith(h, "172.") && |h| >= 7 && h[6] == '.'
    && ((h[4] == '1' && '6' <= h[5] <= '9') || (h[4] == '2' && IsDigit(h[5])) || (h[4] == '3' && (h[5] == '0' || h[5] == '1')))
  }

  /** The private address patterns, tested against the host name as it
      stands. */
  predicate PrivatePattern(h: string) {
    || StartsWith(h, "127.") || StartsWith(h, "10.") || Private172(h) || StartsWith(h, "192.168.")
    || StartsWith(h, "0.") || StartsWith(h, "169.254.") || h == "::1"
    || StartsWith(h, "fc00:") || StartsWith(h, "fd") || StartsWith(h, "fe80:")
  }

  /** `isPrivateHost` as written. */
  predicate IsPrivateHostAsWritten(h: string) {
    BlockedHostname(h) || PrivatePattern(h)
  }

  /** An IPv6 host without its brackets; other hosts unchanged. */
  function Unbracket(h: string): (r: string)
    ensures |h| >= 2 && h[0] == '[' && h[|h| - 1] == ']' ==> r == h[1..|h| - 1]
    ensures !(|h| >= 2 && h[0] == '[' && h[|h| - 1] == ']') ==> r == h
  {
    if |h| >= 2 && h[0] == '[' && h[|h| - 1] == ']' then h[1..|h| - 1] else h
  }

  /** `isPrivateHost` with the IPv6 patterns applied to the address inside
      the brackets. */
  predicate IsPrivateHost(h: string) {
    BlockedHostname(h) || PrivatePattern(Unbracket(h))
  }

  /** As written, the IPv6 loopback address as a URL reports it is not
      recognised as private. */
  lemma LoopbackV6MissedAsWritten()
    ensures !IsPrivateHostAsWritten("[::1]")
  {
    assert "[::1]"[0] == '[';
  }

  /** The corrected check recognises bracketed IPv6 addresses exactly as
      the patterns describe them. */
  lemma BracketedHostsChecked(addr: string)
    ensures IsPrivateHost("[" + addr + "]") <==> PrivatePattern(addr)
  {
    var h := "[" + addr + "]";
    assert h[1..|h| - 1] == addr;
    assert h[0] == '[';
    assert !BlockedHostname(h) by {
      assert "localhost"[0] != '[' && "metadata.google.internal"[0] != '[' && "169.254.169.254"[0] != '[';
    }
  }

  /** The IPv6 loopback literal, as the URL parser reports it, is private
      for the corrected check. */
  lemma BracketedLoopback()
    ensures IsPrivateHost("[::1]")
  {
    BracketedHostsChecked("::1");
    assert "[" + "::1" + "]" == "[::1]";
  }

  /** So are link-local and unique-local literals. */
  lemma BracketedLocalRanges()
    ensures IsPrivateHost("[fe80::1]") && IsPrivateHost("[fd12::1]")
  {
    BracketedHostsChecked("fe80::1");
    assert "[" + "fe80::1" + "]" == "[fe80::1]";
    assert "fe80::1"[..5] == "fe80:";
    BracketedHostsChecked("fd12::1");
    assert "[" + "fd12::1" + "]" == "[fd12::1]";
    assert "fd12::1"[..2] == "fd";
  }

  /** On a host that is not bracketed the correction changes nothing. */
  lemma UnbracketedAgree(h: string)
    requires |h| == 0 || h[0] != '['
    ensures IsPrivateHost(h) <==> IsPrivateHostAsWritten(h)
  {
  }

  const NotHttps := "MCP server URL must use HTTPS in production"

  function InvalidUrl(url: string): string {
    "Invalid MCP server URL: " + url
  }

  function PrivateAddress(hostname: string): string {
    "MCP server URL points to a private/internal address: " + hostname
  }

  /** `validateMcpServerUrl` with a host check given as a parameter; `None`
      means the URL is accepted. */
  function ValidateWith(url: string, production: bool, parse: string -> Option<ParsedUrl>, isPrivate: string -> bool): (r: Option<string>)
    ensures parse(url).None? ==> r == Some(InvalidUrl(url))
    ensures parse(url).Some? && !production ==> r.None?
    ensures parse(url).Some? && production ==>
              var p := parse(url).value;
              && (isPrivate(p.hostname) ==> r == Some(PrivateAddress(p.hostname)))
              && (!isPrivate(p.hostname) && p.protocol != "https:" ==> r == Some(NotHttps))
              && (r.None? <==> !isPrivate(p.hostname) && p.protocol == "https:")
  {
    match parse(url)
    case None => Some(InvalidUrl(url))
    case Some(p) =>
      if !production then None
      else if isPrivate(p.hostname) then Some(PrivateAddress(p.hostname))
      else if p.protocol != "https:" then Some(NotHttps)
      else None
  }

  /** The check as written. */
  function ValidateMcpServerUrlAsWritten(url: string, production: bool, parse: string -> Option<ParsedUrl>): (r: Option<string>)
    ensures parse(url).None? ==> r == Some(InvalidUrl(url))
    ensures parse(url).Some? && !production ==> r.None?
    ensures parse(url).Some? && production && IsPrivateHostAsWritten(parse(url).value.hostname) ==>
              r == Some(PrivateAddress(parse(url).value.hostname))
    ensures parse(url).Some? && production && !IsPrivateHostAsWritten(parse(url).value.hostname) ==>
              r == (if parse(url).value.protocol == "https:" then None else Some(NotHttps))
  {
    ValidateWith(url, production, parse, IsPrivateHostAsWritten)
  }

  /** The check with the corrected host test. */
  function ValidateMcpServerUrl(url: string, production: bool, parse: string -> Option<ParsedUrl>): (r: Option<string>)
    ensures parse(url).None? ==> r == Some(InvalidUrl(url))
    ensures parse(url).Some? && !production ==> r.None?
    ensures parse(url).Some? && production && IsPrivateHost(parse(url).value.hostname) ==>
              r == Some(PrivateAddress(parse(url).value.hostname))
    ensures parse(url).Some? && production && !IsPrivateHost(parse(url).value.hostname) ==>
              r == (if parse(url).value.protocol == "https:" then None else Some(NotHttps))
  {
    ValidateWith(url, production, parse, IsPrivateHost)
  }

  /** An HTTPS URL to the IPv6 loopback address passes the production
      check as written, and is refused by the corrected one. */
  lemma LoopbackUrlInProduction(url: string, parse: string -> Option<ParsedUrl>)
    requires parse(url) == Some(ParsedUrl("[::1]", "https:"))
    ensures ValidateMcpServerUrlAsWritten(url, true, parse).None?
    ensures ValidateMcpServerUrl(url, true, parse) == Some(PrivateAddress("[::1]"))
  {
    LoopbackV6MissedAsWritten();
    BracketedLoopback();
  }

  /** The `fd` pattern has no delimiter: any name beginning with `fd` is
      treated as private. */
  lemma FdPrefixCatchesNames(rest: string)
    ensures IsPrivateHost("fd" + rest)
  {
    var h := "fd" + rest;
    assert h[..2] == "fd" && h[0] == 'f';
  }
}
