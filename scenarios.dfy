/** Concrete addresses, paths and requests worked through the model, a few
    for each component. */
module Scenarios {
  import opened Wrappers
  import opened Text
  import opened AddressClassifier
  import opened TargetResolver
  import opened SsrfGuard
  import opened Dispatcher

  /** Dotted quads in and out of private space. */
  lemma TenNetIsPrivate()
    ensures IsPrivateIPv4Text("10.1.2.3")
  {
    assert Decimal(10) == "10";
    assert Decimal(1) == "1";
    assert Decimal(2) == "2";
    assert Decimal(3) == "3";
    assert DottedQuad(IPv4(10, 1, 2, 3)) == "10.1.2.3";
    DottedQuadRoundTrip(IPv4(10, 1, 2, 3));
  }

  lemma LoopbackIsPrivate()
    ensures IsPrivateIPv4Text("127.0.0.1")
  {
    assert Decimal(127) == "127";
    assert Decimal(0) == "0";
    assert Decimal(1) == "1";
    assert DottedQuad(IPv4(127, 0, 0, 1)) == "127.0.0.1";
    DottedQuadRoundTrip(IPv4(127, 0, 0, 1));
  }

  lemma InsideTwelveBitBlockIsPrivate()
    ensures IsPrivateIPv4Text("172.20.0.1")
  {
    assert Decimal(172) == "172";
    assert Decimal(20) == "20";
    assert Decimal(0) == "0";
    assert Decimal(1) == "1";
    assert DottedQuad(IPv4(172, 20, 0, 1)) == "172.20.0.1";
    DottedQuadRoundTrip(IPv4(172, 20, 0, 1));
  }

  lemma HomeNetIsPrivate()
    ensures IsPrivateIPv4Text("192.168.1.5")
  {
    assert Decimal(192) == "192";
    assert Decimal(168) == "168";
    assert Decimal(1) == "1";
    assert Decimal(5) == "5";
    assert DottedQuad(IPv4(192, 168, 1, 5)) == "192.168.1.5";
    DottedQuadRoundTrip(IPv4(192, 168, 1, 5));
  }

  lemma PublicResolverIsPublic()
    ensures !IsPrivateIPv4Text("8.8.8.8")
  {
    assert Decimal(8) == "8";
    assert DottedQuad(IPv4(8, 8, 8, 8)) == "8.8.8.8";
    DottedQuadRoundTrip(IPv4(8, 8, 8, 8));
  }

  lemma PublicHostIsPublic()
    ensures !IsPrivateIPv4Text("93.184.216.34")
  {
    assert Decimal(93) == "93";
    assert Decimal(184) == "184";
    assert Decimal(216) == "216";
    assert Decimal(34) == "34";
    assert DottedQuad(IPv4(93, 184, 216, 34)) == "93.184.216.34";
    DottedQuadRoundTrip(IPv4(93, 184, 216, 34));
  }

  lemma AboveTwelveBitBlockIsPublic()
    ensures !IsPrivateIPv4Text("172.32.0.1")
  {
    assert Decimal(172) == "172";
    assert Decimal(32) == "32";
    assert Decimal(0) == "0";
    assert Decimal(1) == "1";
    assert DottedQuad(IPv4(172, 32, 0, 1)) == "172.32.0.1";
    DottedQuadRoundTrip(IPv4(172, 32, 0, 1));
  }

  /** The IPv6 prefix test on loopback, unique-local, link-local and a
      public address, in either case. */
  lemma IPv6Examples()
    ensures IsPrivateIPv6("::1") && IsPrivateIPv6("fd00::1") && IsPrivateIPv6("FE80::ABCD")
    ensures !IsPrivateIPv6("2001:4860:4860::8888")
  {
    assert Lower("FE80::ABCD")[..4] == "fe80";
    assert Lower("2001:4860:4860::8888")[0] == '2';
  }

  /** Reserved names are forbidden whatever `net.isIP` says of them. */
  lemma ReservedNameExamples(isIP: IsIP)
    ensures IsForbiddenHost("localhost", isIP)
    ensures IsForbiddenHost("a.localhost", isIP)
    ensures IsForbiddenHost("x.internal", isIP)
  {
    LocalhostIsLowerCase();
    SuffixedNamesJoin();
    ReservedBySuffix("a", ".localhost");
    ReservedBySuffix("x", ".internal");
  }

  lemma LocalhostIsLowerCase()
    ensures Lower("localhost") == "localhost"
  {
    LowerOfLowerCase("localhost");
  }

  lemma SuffixedNamesJoin()
    ensures "a.localhost" == "a" + ".localhost"
    ensures "x.internal" == "x" + ".internal"
  {
  }

  /** A lower-case name followed by a reserved suffix is reserved. */
  lemma ReservedBySuffix(first: string, suffix: string)
    requires IsLowerCase(first) && suffix in ReservedSuffixes
    ensures IsReservedName(first + suffix)
  {
    var i :| 0 <= i < |ReservedSuffixes| && ReservedSuffixes[i] == suffix;
    assert IsLowerCase(suffix);
    LowerOfLowerCase(first + suffix);
    EndsWithAppend(first, suffix);
    assert EndsWith(Lower(first + suffix), ReservedSuffixes[i]);
  }

  /** An ordinary name is not forbidden by inspection alone. */
  lemma OrdinaryNameExample(isIP: IsIP)
    requires isIP("example.com") == NotIp
    ensures !IsForbiddenHost("example.com", isIP)
  {
    NotReservedByLastChar("example.com");
  }

  /** A full URL in the path is returned as it stands, query included. */
  lemma FullUrlPathExample()
    ensures ResolveTarget("/https://example.com/v1?q=1", None, false) == Some("https://example.com/v1?q=1")
  {
    HttpsIsAScheme();
    FullUrlIsKept("https://", "example.com/v1?q=1", None, false);
    FullUrlPathSplits();
  }

  lemma HttpsIsAScheme()
    ensures Lower("https://") == "https://"
  {
    LowerOfLowerCase("https://");
  }

  lemma HttpIsAScheme()
    ensures Lower("http://") == "http://"
  {
    LowerOfLowerCase("http://");
  }

  lemma FullUrlPathSplits()
    ensures "/https://example.com/v1?q=1" == "/" + "https://" + "example.com/v1?q=1"
    ensures "https://example.com/v1?q=1" == "https://" + "example.com/v1?q=1"
  {
  }

  /** An upgrade whose path names no scheme takes the inbound connection's. */
  lemma UpgradePathExamples()
    ensures ResolveTarget("/echo.example.com/socket", Some("websocket"), true)
            == Some("wss://echo.example.com/socket")
    ensures ResolveTarget("/echo.example.com/socket", Some("WebSocket"), false)
            == Some("ws://echo.example.com/socket")
  {
    EchoPathHasNoScheme();
    UpgradeHeadersMatch();
    UpgradePathGetsScheme("echo.example.com/socket", Some("websocket"), true);
    UpgradePathGetsScheme("echo.example.com/socket", Some("WebSocket"), false);
    EchoPathSplits();
  }

  lemma EchoPathHasNoScheme()
    ensures !HasSchemePrefix("echo.example.com/socket")
  {
    NoSchemeByFirstChar("echo.example.com/socket");
  }

  lemma UpgradeHeadersMatch()
    ensures IsWebSocketUpgrade(Some("websocket")) && IsWebSocketUpgrade(Some("WebSocket"))
  {
    LowerOfLowerCase("websocket");
    assert Lower("WebSocket") == "websocket";
  }

  lemma EchoPathSplits()
    ensures "/echo.example.com/socket" == "/" + "echo.example.com/socket"
    ensures "wss://echo.example.com/socket" == UpgradeScheme(true) + "echo.example.com/socket"
    ensures "ws://echo.example.com/socket" == UpgradeScheme(false) + "echo.example.com/socket"
  {
  }

  /** A public-looking name that resolves only to 192.168.1.5 is refused
      with 403, on both entry points. */
  lemma PrivateResolutionIsRefused(isIP: IsIP, parseUrl: ParseUrl, lookup: Lookup)
    requires parseUrl("https://api.example.com/") == Parsed("api.example.com", "https://api.example.com/")
    requires isIP("api.example.com") == NotIp
    requires lookup("api.example.com") == Resolved([DnsRecord(4, "192.168.1.5")])
    ensures var req := Request("GET", "/https://api.example.com/", None, false);
            HandleHttpRequest(req, isIP, parseUrl, lookup)
              == JsonError(403, "Forbidden", Some("Target host resolves to private address"))
            && HandleWsUpgrade(req, isIP, parseUrl, lookup) == RawStatusLine(ForbiddenLine)
  {
    ApiHostResolvesPrivate(isIP, lookup);
    ApiTarget();
    PrivateResolutionIsForbidden(Request("GET", "/https://api.example.com/", None, false), isIP, parseUrl, lookup);
  }

  lemma ApiHostResolvesPrivate(isIP: IsIP, lookup: Lookup)
    requires isIP("api.example.com") == NotIp
    requires lookup("api.example.com") == Resolved([DnsRecord(4, "192.168.1.5")])
    ensures !IsForbiddenHost("api.example.com", isIP)
    ensures ResolvesToPrivate("api.example.com", isIP, lookup)
  {
    NotReservedByLastChar("api.example.com");
    HomeNetIsPrivate();
    assert IsPrivateRecord(lookup("api.example.com").records[0]);
  }

  lemma ApiTarget()
    ensures ResolveTarget("/https://api.example.com/", None, false) == Some("https://api.example.com/")
  {
    HttpsIsAScheme();
    FullUrlIsKept("https://", "api.example.com/", None, false);
    ApiPathSplits();
  }

  lemma ApiPathSplits()
    ensures "/https://api.example.com/" == "/" + "https://" + "api.example.com/"
    ensures "https://api.example.com/" == "https://" + "api.example.com/"
  {
  }

  /** A private literal is refused with 403 whatever the resolver would
      have said. */
  lemma PrivateLiteralIsRefused(isIP: IsIP, parseUrl: ParseUrl, lookup: Lookup)
    requires parseUrl("http://127.0.0.1:9000/") == Parsed("127.0.0.1", "http://127.0.0.1:9000/")
    requires isIP("127.0.0.1") == V4
    ensures HandleHttpRequest(Request("GET", "/http://127.0.0.1:9000/", None, false), isIP, parseUrl, lookup)
            == JsonError(403, "Forbidden", Some("Target host is not allowed"))
  {
    LoopbackTarget();
    LoopbackIsPrivate();
  }

  lemma LoopbackTarget()
    ensures ResolveTarget("/http://127.0.0.1:9000/", None, false) == Some("http://127.0.0.1:9000/")
  {
    HttpIsAScheme();
    FullUrlIsKept("http://", "127.0.0.1:9000/", None, false);
    LoopbackPathSplits();
  }

  lemma LoopbackPathSplits()
    ensures "/http://127.0.0.1:9000/" == "/" + "http://" + "127.0.0.1:9000/"
    ensures "http://127.0.0.1:9000/" == "http://" + "127.0.0.1:9000/"
  {
  }
}
